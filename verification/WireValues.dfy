/** The JSON values that serialization can produce, and the law that deserialization gives them back. */
module WireValues {
  import opened Wrappers
  import opened JsonValues
  import opened Primitives
  import opened Versions
  import opened Saids

  // ---------- text ----------

  predicate Continuation(ch: char) {
    0x80 <= ch as int <= 0xBF
  }

  /** How many bytes the first UTF-8 sequence of `s` has, or 0 if `s` does not start with one. */
  function FirstLength(s: string): (n: nat)
    ensures n <= |s|
  {
    if s == "" then 0
    else
      var b := s[0] as int;
      var c1 := if |s| > 1 then s[1] as int else 0;
      if b < 0x80 then 1
      else if |s| > 1 && 0xC2 <= b <= 0xDF && Continuation(s[1]) then 2
      else if |s| > 2 && 0xE0 <= b <= 0xEF && Continuation(s[1]) && Continuation(s[2]) &&
              (b == 0xE0 ==> c1 >= 0xA0) && (b == 0xED ==> c1 <= 0x9F) then 3
      else if |s| > 3 && 0xF0 <= b <= 0xF4 && Continuation(s[1]) && Continuation(s[2]) && Continuation(s[3]) &&
              (b == 0xF0 ==> c1 >= 0x90) && (b == 0xF4 ==> c1 <= 0x8F) then 4
      else 0
  }

  /** The bytes of a Rust string. */
  predicate Utf8(s: string)
    decreases |s|
  {
    s == "" || (FirstLength(s) > 0 && Utf8(s[FirstLength(s)..]))
  }

  lemma {:induction false} AsciiIsUtf8(s: string)
    requires Ascii(s)
    ensures Utf8(s)
  {
    if s != "" {
      assert s[0] in s;
      forall ch | ch in s[1..] ensures ch as int < 128 { assert ch in s; }
      AsciiIsUtf8(s[1..]);
    }
  }

  lemma Base64IsUtf8(s: string)
    requires Base64Text(s)
    ensures Utf8(s)
  {
    forall ch | ch in s ensures ch as int < 128 { assert IsBase64(ch); }
    AsciiIsUtf8(s);
  }

  // ---------- values ----------

  /** Nesting beyond this is not read back. */
  const MAX_DEPTH: nat := 127

  predicate DistinctKeys(fields: seq<Field>) {
    forall i, j :: 0 <= i < j < |fields| ==> fields[i].key != fields[j].key
  }

  /** Values of `serde_json`: printed numbers, UTF-8 text, no repeated keys, nested at most `depth` deep. */
  predicate WellFormed(c: Suite, v: Json, depth: nat) {
    match v
    case Number(l) => c.isNumber(l)
    case Str(s) => Utf8(s)
    case Arr(items) => depth > 0 && forall i :: 0 <= i < |items| ==> WellFormed(c, items[i], depth - 1)
    case Obj(fields) =>
      depth > 0 && DistinctKeys(fields) &&
      forall i :: 0 <= i < |fields| ==> Utf8(fields[i].key) && WellFormed(c, fields[i].value, depth - 1)
    case _ => true
  }

  /** Deserialization undoes the serialization of such values. */
  ghost predicate DecodeLaw(c: Suite) {
    forall v :: WellFormed(c, v, MAX_DEPTH) ==> c.decode(Print(v)) == Some(v)
  }

  /** Overwriting or adding a field keeps an object well-formed. */
  lemma SetWellFormed(c: Suite, v: Json, key: string, x: Json, depth: nat)
    requires v.Obj? && WellFormed(c, v, depth) && Utf8(key) && depth > 0 && WellFormed(c, x, depth - 1)
    ensures WellFormed(c, Set(v, key, x), depth)
  {
    var fields, i := v.fields, Find(v.fields, key);
    var r := Insert(fields, key, x);
    forall j | 0 <= j < |r| ensures Utf8(r[j].key) && WellFormed(c, r[j].value, depth - 1) {
      if j < |fields| && j != i {
        assert r[j] == fields[j];
      } else {
        assert r[j] == Field(key, x);
      }
    }
    forall j, k | 0 <= j < k < |r| ensures r[j].key != r[k].key {
      if i < |fields| {
        assert r[j].key == fields[j].key && r[k].key == fields[k].key;
      }
    }
  }

  /** So does filling in a digest. */
  lemma FillWellFormed(c: Suite, sad: Json, x: string, both: bool, depth: nat)
    requires sad.Obj? && WellFormed(c, sad, depth) && Utf8(x) && depth > 0
    ensures WellFormed(c, Fill(sad, x, both), depth)
  {
    hide WellFormed, Set;
    TextWellFormed(c, x, depth - 1);
    KeysUtf8();
    SetWellFormed(c, sad, "d", Str(x), depth);
    if both {
      SetWellFormed(c, Set(sad, "d", Str(x)), "i", Str(x), depth);
    }
  }

  lemma TextWellFormed(c: Suite, s: string, depth: nat)
    requires Utf8(s)
    ensures WellFormed(c, Str(s), depth)
  {
  }

  lemma KeysUtf8()
    ensures Utf8("d") && Utf8("i") && Utf8("v")
  {
    AsciiIsUtf8("d");
    AsciiIsUtf8("i");
    AsciiIsUtf8("v");
  }
}
