/** Messages that embed their own length and digest (JSON bodies). */
module Serders {
  import opened Wrappers
  import opened Numerals
  import opened JsonValues
  import opened Primitives
  import opened Versions
  import opened Saids
  import opened WireValues

  datatype Serder = Serder(raw: string, version: Option<Version>, kind: Kind, sad: Json)

  // ---------- building a message ----------

  /** Hab's `fix_version_string`: declare the length the message will have once its SAID is in place. */
  function FixVersionString(sad: Json): Json
    requires sad.Obj?
  {
    var both := Get(sad, "d") == Get(sad, "i");
    var origD := if Get(sad, "d").Some? then Get(sad, "d").value else Null;
    var origI := if Get(sad, "i").Some? then Get(sad, "i").value else Null;
    var sized := Fill(sad, DUMMY, both);
    var vs := "KERI10JSON" + Padded(|Print(sized)|, 16, 6) + "_";
    Set(Set(Set(sized, "v", Str(vs)), "d", origD), "i", origI)
  }

  function WithVersion(sad: Json, v: Version): Json
    requires sad.Obj?
  {
    Set(sad, "v", Str(ToVersionString(v)))
  }

  /** The version a message body starts from: its own, if it parses, with the given size. */
  function BaseVersion(vs: string, size: nat): Version {
    match ParseStr(vs)
    case Ok(v) => v.(size := size)
    case Err(_) => Version("KERI", 1, 0, JsonKind, size)
  }

  /** The message after the first pass of `Serder::new`. */
  function FirstPass(sad: Json): Json {
    match GetStr(sad, "v")
    case None => sad
    case Some(vs) => WithVersion(sad, BaseVersion(vs, |Print(sad)|))
  }

  /** `Serder::new` for JSON: two passes that write the observed size into `v`. */
  function New(sad: Json): Serder {
    match GetStr(sad, "v")
    case None => Serder(Print(sad), None, JsonKind, sad)
    case Some(vs) =>
      var v1 := BaseVersion(vs, |Print(sad)|);
      var pass1 := FirstPass(sad);
      var v2 := v1.(size := |Print(pass1)|);
      var pass2 := WithVersion(pass1, v2);
      Serder(Print(pass2), Some(v2), JsonKind, pass2)
  }

  method FixVersion(doc: Document)
    requires doc.value.Obj?
    modifies doc
    ensures doc.value == FixVersionString(old(doc.value))
  {
    hide Set, Get, Print, Padded;
    var both := Get(doc.value, "d") == Get(doc.value, "i");
    var origD := if Get(doc.value, "d").Some? then Get(doc.value, "d").value else Null;
    var origI := if Get(doc.value, "i").Some? then Get(doc.value, "i").value else Null;
    doc.value := Set(doc.value, "d", Str(DUMMY));
    if both {
      doc.value := Set(doc.value, "i", Str(DUMMY));
    }
    var temp := Print(doc.value);
    doc.value := Set(doc.value, "v", Str("KERI10JSON" + Padded(|temp|, 16, 6) + "_"));
    doc.value := Set(doc.value, "d", origD);
    doc.value := Set(doc.value, "i", origI);
  }

  /** `Serder::new` for any serialization. */
  function NewFor(c: Suite, kind: Kind, sad: Json): Result<Serder> {
    var raw :- Serialize(c, sad, kind);
    match GetStr(sad, "v")
    case None => Ok(Serder(raw, None, kind, sad))
    case Some(vs) =>
      StrMeansObj(sad);
      var v1 := (match ParseStr(vs) case Ok(v) => v.(size := |raw|) case Err(_) => Version("KERI", 1, 0, kind, |raw|));
      var pass1 := WithVersion(sad, v1);
      var raw1 :- Serialize(c, pass1, kind);
      var v2 := v1.(size := |raw1|);
      var pass2 := WithVersion(pass1, v2);
      var raw2 :- Serialize(c, pass2, kind);
      Ok(Serder(raw2, Some(v2), kind, pass2))
  }

  lemma UsualSerder(c: Suite, sad: Json)
    ensures NewFor(c, JsonKind, sad) == Ok(New(sad))
  {
    hide Set, Get, Print, ToVersionString, ParseStr;
  }

  method NewSerder(c: Suite, kind: Kind, sad: Json) returns (r: Result<Serder>)
    ensures r == NewFor(c, kind, sad)
  {
    hide Set, Get, Print, ToVersionString, ParseStr, Serialize;
    var body := sad;
    var raw := Serialize(c, body, kind);
    if raw.Err? {
      return Err(raw.error);
    }
    var vs := GetStr(body, "v");
    if vs.None? {
      return Ok(Serder(raw.value, None, kind, body));
    }
    var parsed := ParseStr(vs.value);
    var version := Version("KERI", 1, 0, kind, |raw.value|);
    if parsed.Ok? {
      version := parsed.value.(size := |raw.value|);
    }
    StrMeansObj(body);
    body := Set(body, "v", Str(ToVersionString(version)));
    raw := Serialize(c, body, kind);
    if raw.Err? {
      return Err(raw.error);
    }
    version := version.(size := |raw.value|);
    body := Set(body, "v", Str(ToVersionString(version)));
    raw := Serialize(c, body, kind);
    r := if raw.Err? then Err(raw.error) else Ok(Serder(raw.value, Some(version), kind, body));
  }

  lemma StrMeansObj(sad: Json)
    requires GetStr(sad, "v").Some?
    ensures sad.Obj?
  {
  }

  // ---------- reading a message ----------

  const SEARCH_WINDOW := 32

  predicate TagAt(data: string, i: nat) {
    i + 4 <= |data| && (data[i..i + 4] == "KERI" || data[i..i + 4] == "ACDC" || data[i..i + 4] == "SAID")
  }

  /** Position of the earliest protocol tag at or after `i`. */
  function FirstTag(window: string, i: nat): Option<nat>
    decreases |window| - i
  {
    if i >= |window| then None
    else if TagAt(window, i) then Some(i)
    else FirstTag(window, i + 1)
  }

  function ExtractVersion(data: string): Option<Version> {
    var window := if |data| < SEARCH_WINDOW then data else data[..SEARCH_WINDOW];
    match FirstTag(window, 0)
    case None => None
    case Some(pos) =>
      if pos + FULL_SIZE > |data| then None
      else
        match ParseStr(data[pos..pos + FULL_SIZE])
        case Ok(v) => Some(v)
        case Err(_) => None
  }

  function SniffKind(ch: char): Result<Kind> {
    var b := ch as int;
    if ch == '{' then Ok(JsonKind)
    else if 0xa0 <= b <= 0xbb || b == 0xbf then Ok(Kind.Cbor)
    else if 0x80 <= b <= 0x8f || b == 0xde || b == 0xdf then Ok(Kind.MsgPack)
    else Err(ParseError)
  }

  /** `Serder::from_raw`: cut the message off the front of `raw` by its declared size. */
  function FromRaw(c: Suite, raw: string): (r: Result<Serder>)
    ensures r.Ok? ==> |r.value.raw| <= |raw|
  {
    if raw == "" then Err(ParseError)
    else
      var kind :- SniffKind(raw[0]);
      var version := ExtractVersion(raw);
      var size := if version.Some? then version.value.size else |raw|;
      if |raw| < size then Err(ParseError)
      else
        var sad :- OkOr(c.decode(raw[..size]), SerialError(kind));
        var fromSad :=
          match GetStr(sad, "v")
          case Some(vs) => (match ParseStr(vs) case Ok(v) => Some(v) case Err(_) => None)
          case None => None;
        Ok(Serder(raw[..size], if version.Some? then version else fromSad, kind, sad))
  }

  /** What is read is a prefix of the stream, and its value is what those bytes decode to. */
  lemma ReadBody(c: Suite, raw: string)
    requires FromRaw(c, raw).Ok?
    ensures var s := FromRaw(c, raw).value;
      s.raw <= raw && c.decode(s.raw) == Some(s.sad)
  {
    hide ExtractVersion, ParseStr;
  }

  // ---------- the length fixed point ----------

  lemma StrLength(a: string)
    requires Plain(a)
    ensures |Print(Str(a))| == |a| + 2
  {
    PlainEscape(a);
  }

  lemma {:induction false} EscapeLengthAppend(a: string, b: string)
    ensures Escape(a + b) == Escape(a) + Escape(b)
  {
    if a == "" {
      assert a + b == b;
    } else {
      assert (a + b)[1..] == a[1..] + b;
      EscapeLengthAppend(a[1..], b);
      Assoc(EscapeChar(a[0]), Escape(a[1..]), Escape(b));
    }
  }

  lemma SuffixPlain(v: Version)
    requires Standard(v)
    ensures Plain(ToVersionString(v)[4..])
  {
    Layout(v);
    SixHexDigits(v.size);
    var vs := ToVersionString(v);
    DigitOfChar(v.major, 16);
    DigitOfChar(v.minor, 16);
    forall ch | ch in vs[4..]
      ensures ch as int >= 32 && ch != '"' && ch != '\\'
    {
      assert vs[4..] == [vs[4]] + [vs[5]] + vs[6..10] + vs[10..16] + [vs[16]];
    }
  }

  /** Two renderings of one protocol's version string take the same room in a message. */
  lemma SameRoom(v: Version, w: Version)
    requires Standard(v) && Standard(w) && v.protocol == w.protocol
    ensures |Print(Str(ToVersionString(v)))| == |Print(Str(ToVersionString(w)))|
  {
    Layout(v);
    Layout(w);
    var a, b := ToVersionString(v), ToVersionString(w);
    assert a == v.protocol + a[4..] && b == w.protocol + b[4..];
    EscapeLengthAppend(v.protocol, a[4..]);
    EscapeLengthAppend(w.protocol, b[4..]);
    SuffixPlain(v);
    SuffixPlain(w);
    PlainEscape(a[4..]);
    PlainEscape(b[4..]);
  }

  /** A message that already declares its own size is left alone. */
  lemma Rebuild(sad: Json, v: Version)
    requires sad.Obj? && GetStr(sad, "v") == Some(ToVersionString(v))
    requires Standard(v) && Ascii(v.protocol) && v.size == |Print(sad)|
    ensures New(sad) == Serder(Print(sad), Some(v), JsonKind, sad)
  {
    VersionRoundTrip(v);
    SetRestore(sad, "v", Str(ToVersionString(v)));
    SetTwice(sad, "v", Str(ToVersionString(v)), Str(ToVersionString(v)));
    assert WithVersion(sad, v) == sad;
  }

  /**
   * `Serder::new` reaches its fixed point: whatever `v` said before, the declared size is the
   * real size, building again from the result changes nothing, and no other field is touched.
   */
  lemma NewIsFixedPoint(sad: Json)
    requires GetStr(sad, "v").Some?
    requires |Print(sad)| < 0x100_0000 && |Print(FirstPass(sad))| < 0x100_0000
    ensures New(sad).version.Some? && New(sad).version.value.size == |New(sad).raw|
    ensures New(New(sad).sad) == New(sad)
    ensures forall key :: key != "v" ==> Get(New(sad).sad, key) == Get(sad, key)
  {
    var v1 := BaseVersion(GetStr(sad, "v").value, |Print(sad)|);
    var pass1 := FirstPass(sad);
    var v2 := v1.(size := |Print(pass1)|);
    BaseVersionShape(GetStr(sad, "v").value, |Print(sad)|);
    var a, b := Str(ToVersionString(v1)), Str(ToVersionString(v2));
    forall key | key != "v" ensures Get(New(sad).sad, key) == Get(sad, key) {
      GetSet(sad, "v", a, key);
      GetSet(pass1, "v", b, key);
    }
    GetSet(sad, "v", a, "");
    GetSet(pass1, "v", b, "");
    SetLength(pass1, "v", b);
    SameRoom(v1, v2);
    Rebuild(New(sad).sad, v2);
  }

  lemma BaseVersionShape(vs: string, size: nat)
    ensures var v := BaseVersion(vs, size);
      |v.protocol| == 4 && v.major < 16 && v.minor < 16 && v.size == size && Ascii(v.protocol)
  {
    if ParseStr(vs).Ok? {
      assert forall ch :: ch in vs[0..4] ==> ch in vs[..FULL_SIZE];
    }
  }

  // ---------- reading back ----------

  /** A message body whose first field is a standard JSON version string. */
  predicate Headed(sad: Json, v: Version) {
    && sad.Obj? && sad.fields != [] && sad.fields[0] == Field("v", Str(ToVersionString(v)))
    && Standard(v) && v.protocol == "KERI"
  }

  const OPENING := "{\"v\":\""

  lemma HeadText(sad: Json, v: Version)
    requires Headed(sad, v)
    ensures |Print(sad)| >= 24 && Print(sad)[..6] == OPENING && Print(sad)[6..23] == ToVersionString(v)
  {
    var vs, more := ToVersionString(v), PrintFields(sad.fields[1..]);
    Layout(v);
    VersionPlain(v);
    hide ToVersionString, Standard, Plain, Escape;
    VersionFieldText(vs);
    HeadSlices(vs, more);
  }

  /** The rendering of the version field, byte by byte. */
  lemma VersionFieldText(vs: string)
    requires Plain(vs)
    ensures PrintField(Field("v", Str(vs))) == ("\"" + "v" + "\"") + (":" + ("\"" + vs + "\""))
  {
    PlainEscape(vs);
    PlainEscape("v");
  }

  lemma HeadSlices(vs: string, more: string)
    requires |vs| == FULL_SIZE
    ensures var text := "{" + ((("\"" + "v" + "\"") + (":" + ("\"" + vs + "\""))) + more);
      |text| >= 24 && text[..6] == OPENING && text[6..23] == vs
  {
    var text := "{" + ((("\"" + "v" + "\"") + (":" + ("\"" + vs + "\""))) + more);
    assert text == OPENING + vs + ("\"" + more);
  }

  lemma VersionPlain(v: Version)
    requires Standard(v) && v.protocol == "KERI"
    ensures Plain(ToVersionString(v))
  {
    SuffixPlain(v);
    Layout(v);
    var vs := ToVersionString(v);
    assert vs == "KERI" + vs[4..];
  }

  lemma EarliestTag(window: string)
    requires |window| >= 10 && window[..6] == OPENING && window[6..10] == "KERI"
    ensures FirstTag(window, 0) == Some(6)
  {
    forall i | 0 <= i < 6
      ensures !TagAt(window, i)
    {
      assert window[i] == window[..6][i] == OPENING[i];
      assert window[i] != 'K' && window[i] != 'A' && window[i] != 'S';
      assert i + 4 <= |window| ==> window[i..i + 4][0] == window[i];
    }
    assert FirstTag(window, 5) == FirstTag(window, 6) == Some(6);
    assert FirstTag(window, 3) == FirstTag(window, 4) == FirstTag(window, 5);
    assert FirstTag(window, 1) == FirstTag(window, 2) == FirstTag(window, 3);
  }

  /** The declared version is found at the front of the message, whatever follows it in the stream. */
  lemma VersionFound(sad: Json, v: Version, rest: string)
    requires Headed(sad, v)
    ensures ExtractVersion(Print(sad) + rest) == Some(v)
  {
    HeadText(sad, v);
    VersionRoundTrip(v);
    Layout(v);
    hide Print, ToVersionString, ParseStr;
    var text, data := Print(sad), Print(sad) + rest;
    var window := if |data| < SEARCH_WINDOW then data else data[..SEARCH_WINDOW];
    assert data[..6] == text[..6] && data[6..23] == text[6..23];
    assert window[..6] == data[..6];
    assert window[6..10] == data[6..23][..4];
    EarliestTag(window);
  }

  /** A message that declares its own size is cut off the stream exactly, and read back as it was built. */
  lemma ReadBack(c: Suite, sad: Json, v: Version, rest: string)
    requires DecodeLaw(c) && WellFormed(c, sad, MAX_DEPTH) && Headed(sad, v) && v.size == |Print(sad)|
    ensures FromRaw(c, Print(sad) + rest) == Ok(Serder(Print(sad), Some(v), JsonKind, sad))
  {
    HeadText(sad, v);
    VersionFound(sad, v, rest);
    assert (Print(sad) + rest)[0] == Print(sad)[..6][0] == '{';
    assert (Print(sad) + rest)[..v.size] == Print(sad);
  }

  /** A body that shows no version string in front is taken to be the whole of what is read. */
  lemma ReadWhole(c: Suite, sad: Json)
    requires DecodeLaw(c) && WellFormed(c, sad, MAX_DEPTH) && sad.Obj? && ExtractVersion(Print(sad)) == None
    ensures FromRaw(c, Print(sad)).Ok?
    ensures var s := FromRaw(c, Print(sad)).value; s.raw == Print(sad) && s.sad == sad && s.kind == JsonKind
  {
    hide ExtractVersion, ParseStr, WellFormed;
    ObjectOpens(sad);
    assert Print(sad)[..|Print(sad)|] == Print(sad);
  }

  lemma ObjectOpens(sad: Json)
    requires sad.Obj?
    ensures Print(sad) != "" && Print(sad)[0] == '{'
  {
  }

  // ---------- the whole construction of an event ----------

  /** `fix_version_string`, then `compute_said`, then `Serder::new`. */
  function Build(c: Suite, sad: Json): Result<(Serder, string)>
    requires sad.Obj?
  {
    var done :- ComputeSaid(c, FixVersionString(sad));
    Ok((New(done.0), done.1))
  }

  const UNSIZED := "KERI10JSON000000_"

  /** What every event that Hab assembles looks like before it is finished. */
  predicate Draft(sad: Json) {
    sad.Obj? && sad.fields != [] && sad.fields[0] == Field("v", Str(UNSIZED)) &&
    Get(sad, "d").Some? && Get(sad, "i").Some?
  }

  /** The declared size: the length with dummies where the SAID will go. */
  function DeclaredSize(sad: Json): nat
    requires sad.Obj?
  {
    |Print(Fill(sad, DUMMY, SelfAddressing(sad)))|
  }

  function Stamp(sad: Json): Version
    requires sad.Obj?
  {
    Version("KERI", 1, 0, JsonKind, DeclaredSize(sad))
  }

  /** Fixing the version string changes nothing but `v`. */
  lemma FixedDraft(sad: Json)
    requires Draft(sad)
    ensures FixVersionString(sad) == WithVersion(sad, Stamp(sad))
  {
    var both := SelfAddressing(sad);
    var vs := Str(ToVersionString(Stamp(sad)));
    assert ToVersionString(Stamp(sad)) == "KERI10JSON" + Padded(DeclaredSize(sad), 16, 6) + "_" by {
      assert Format(1, 16) == "1" && Format(0, 16) == "0";
      assert "KERI" + "1" + "0" + "JSON" == "KERI10JSON";
    }
    var d, i := Get(sad, "d").value, Get(sad, "i").value;
    var sized := Fill(sad, DUMMY, both);
    var s := Set(sad, "v", vs);
    GetSet(sad, "v", vs, "d");
    GetSet(sad, "v", vs, "i");
    FillAfterVersion(sad, vs, both);
    assert Set(sized, "v", vs) == Fill(s, DUMMY, both);
    Unfill(s, both);
  }

  lemma FillAfterVersion(sad: Json, vs: Json, both: bool)
    requires Draft(sad)
    ensures Set(Fill(sad, DUMMY, both), "v", vs) == Fill(Set(sad, "v", vs), DUMMY, both)
  {
    var t := Set(sad, "d", Str(DUMMY));
    GetSet(sad, "d", Str(DUMMY), "v");
    GetSet(sad, "d", Str(DUMMY), "i");
    SetCommutes(sad, "d", Str(DUMMY), "v", vs);
    SetCommutes(t, "i", Str(DUMMY), "v", vs);
  }

  /** Putting the original digest and prefix back undoes the placeholders. */
  lemma Unfill(s: Json, both: bool)
    requires s.Obj? && Get(s, "d").Some? && Get(s, "i").Some?
    ensures Set(Set(Fill(s, DUMMY, both), "d", Get(s, "d").value), "i", Get(s, "i").value) == s
  {
    var d, i := Get(s, "d").value, Get(s, "i").value;
    var t := Set(s, "d", Str(DUMMY));
    GetSet(s, "d", Str(DUMMY), "i");
    SetRestore(s, "d", Str(DUMMY));
    SetRestore(s, "i", i);
    SetTwice(s, "i", i, i);
    if both {
      SetCommutes(t, "i", Str(DUMMY), "d", d);
      SetRestore(s, "i", Str(DUMMY));
    }
  }

  /** Equally long values written to equally long fields of equally long messages. */
  lemma SetSameLength(s: Json, t: Json, key: string, x: Json, y: Json)
    requires s.Obj? && t.Obj? && |Print(s)| == |Print(t)| && |Print(x)| == |Print(y)|
    requires Get(s, key).Some? && Get(t, key).Some? && |Print(Get(s, key).value)| == |Print(Get(t, key).value)|
    ensures |Print(Set(s, key, x))| == |Print(Set(t, key, y))|
  {
    SetLength(s, key, x);
    SetLength(t, key, y);
  }

  lemma FillLength(s: Json, x: string, both: bool)
    requires s.Obj? && Get(s, "d").Some? && Get(s, "i").Some? && Plain(x) && |x| == 44
    ensures |Print(Fill(s, x, both))| == |Print(Fill(s, DUMMY, both))|
  {
    hide Get, Set, Print;
    StrLength(x);
    StrLength(DUMMY);
    SetSameLength(s, s, "d", Str(x), Str(DUMMY));
    GetSet(s, "d", Str(x), "i");
    GetSet(s, "d", Str(DUMMY), "i");
    if both {
      SetSameLength(Set(s, "d", Str(x)), Set(s, "d", Str(DUMMY)), "i", Str(x), Str(DUMMY));
    }
  }

  /** The event that `Build` produces from a draft. */
  ghost function Finished(c: Suite, sad: Json): Json
    requires Draft(sad)
  {
    Fill(WithVersion(sad, Stamp(sad)), SaidOf(c, WithVersion(sad, Stamp(sad))), SelfAddressing(sad))
  }

  lemma DraftLength(sad: Json, vs: string, both: bool)
    requires Draft(sad) && Plain(vs) && |vs| == FULL_SIZE
    ensures |Print(Fill(Set(sad, "v", Str(vs)), DUMMY, both))| == |Print(Fill(sad, DUMMY, both))|
  {
    hide Get, Set, Print;
    FillAfterVersion(sad, Str(vs), both);
    GetFill(sad, DUMMY, both, "v");
    VersionField(sad);
    StrLength(vs);
    StrLength(UNSIZED);
    SetLength(Fill(sad, DUMMY, both), "v", Str(vs));
  }

  lemma VersionField(sad: Json)
    requires sad.Obj? && sad.fields != [] && sad.fields[0].key == "v"
    ensures Find(sad.fields, "v") == 0 && Get(sad, "v") == Some(sad.fields[0].value)
  {
  }

  /** Overwriting later fields leaves the leading version field in place. */
  lemma StillHeaded(sad: Json, v: Version, x: string, both: bool)
    requires Headed(sad, v) && Get(sad, "d").Some? && Get(sad, "i").Some?
    ensures Headed(Fill(sad, x, both), v)
  {
    assert Find(sad.fields, "d") > 0 && Find(sad.fields, "i") > 0;
    GetSet(sad, "d", Str(x), "i");
    var s := Set(sad, "d", Str(x));
    assert s.fields[0] == sad.fields[0];
    assert Find(s.fields, "i") > 0;
  }

  /** The finished event carries its SAID and its own length. */
  lemma FinishedEvent(c: Suite, sad: Json)
    requires DigestLaw(c) && TextLaw(c) && Draft(sad) && DeclaredSize(sad) < 0x100_0000
    ensures ComputeSaid(c, FixVersionString(sad)) == Ok((Finished(c, sad), SaidOf(c, WithVersion(sad, Stamp(sad)))))
    ensures Headed(Finished(c, sad), Stamp(sad)) && |Print(Finished(c, sad))| == DeclaredSize(sad)
  {
    var both, v := SelfAddressing(sad), Stamp(sad);
    var fixed := WithVersion(sad, v);
    var said := SaidOf(c, fixed);
    FixedDraft(sad);
    KeepsIdentity(sad, v);
    FillFill(fixed, DUMMY, said, both);
    DigestText(c, Print(Blank(fixed)));
    FillLength(fixed, said, both);
    Layout(v);
    VersionPlain(v);
    DraftLength(sad, ToVersionString(v), both);
    VersionField(sad);
    StillHeaded(fixed, v, said, both);
  }

  /** Finishing a well-formed draft leaves it well-formed. */
  lemma FinishedWellFormed(c: Suite, sad: Json)
    requires DigestLaw(c) && TextLaw(c) && Draft(sad) && DeclaredSize(sad) < 0x100_0000 && WellFormed(c, sad, MAX_DEPTH)
    ensures WellFormed(c, Finished(c, sad), MAX_DEPTH)
  {
    hide Set, Print, ToVersionString, WellFormed, Utf8, Fill;
    var v := Stamp(sad);
    var fixed := WithVersion(sad, v);
    VersionAscii(v);
    AsciiIsUtf8(ToVersionString(v));
    TextWellFormed(c, ToVersionString(v), MAX_DEPTH - 1);
    KeysUtf8();
    SetWellFormed(c, sad, "v", Str(ToVersionString(v)), MAX_DEPTH);
    DigestText(c, Print(Blank(fixed)));
    Base64IsUtf8(SaidOf(c, fixed));
    FillWellFormed(c, fixed, SaidOf(c, fixed), SelfAddressing(sad), MAX_DEPTH);
  }

  lemma KeepsIdentity(sad: Json, v: Version)
    requires sad.Obj?
    ensures Get(WithVersion(sad, v), "d") == Get(sad, "d") && Get(WithVersion(sad, v), "i") == Get(sad, "i")
  {
    GetSet(sad, "v", Str(ToVersionString(v)), "d");
    GetSet(sad, "v", Str(ToVersionString(v)), "i");
  }

  lemma FinishedFields(c: Suite, sad: Json, key: string)
    requires Draft(sad)
    ensures GetStr(Finished(c, sad), "d") == Some(SaidOf(c, WithVersion(sad, Stamp(sad))))
    ensures SelfAddressing(sad) ==> GetStr(Finished(c, sad), "i") == Some(SaidOf(c, WithVersion(sad, Stamp(sad))))
    ensures key != "v" && key != "d" && (key != "i" || !SelfAddressing(sad)) ==>
      Get(Finished(c, sad), key) == Get(sad, key)
  {
    var v := Stamp(sad);
    var fixed := WithVersion(sad, v);
    GetFill(fixed, SaidOf(c, fixed), SelfAddressing(sad), key);
    GetSet(sad, "v", Str(ToVersionString(v)), key);
  }

  /**
   * Self-description: a finished event declares exactly its own length, carries its SAID, is left
   * unchanged by `Serder::new`, differs from the draft in `v`, `d` and the self-addressing `i`
   * alone, and is cut back off any stream it starts.
   */
  lemma SelfDescription(c: Suite, sad: Json, rest: string)
    requires DigestLaw(c) && TextLaw(c) && DecodeLaw(c) && WellFormed(c, sad, MAX_DEPTH)
    requires Draft(sad) && DeclaredSize(sad) < 0x100_0000
    ensures Build(c, sad).Ok?
    ensures var serder, said := Build(c, sad).value.0, Build(c, sad).value.1;
      && serder.raw == Print(serder.sad)
      && serder.version == Some(Version("KERI", 1, 0, JsonKind, |serder.raw|))
      && Headed(serder.sad, serder.version.value)
      && New(serder.sad) == serder
      && GetStr(serder.sad, "d") == Some(said)
      && (SelfAddressing(sad) ==> GetStr(serder.sad, "i") == Some(said))
      && (forall key :: key != "v" && key != "d" && (key != "i" || !SelfAddressing(sad)) ==>
           Get(serder.sad, key) == Get(sad, key))
      && FromRaw(c, serder.raw + rest) == Ok(serder)
  {
    hide Get, Set, Print, ToVersionString, WellFormed;
    FinishedEvent(c, sad);
    FinishedWellFormed(c, sad);
    var done, v := Finished(c, sad), Stamp(sad);
    VersionField(done);
    Rebuild(done, v);
    ReadBack(c, done, v, rest);
    forall key
      ensures key != "v" && key != "d" && (key != "i" || !SelfAddressing(sad)) ==> Get(done, key) == Get(sad, key)
    {
      FinishedFields(c, sad, key);
    }
    FinishedFields(c, sad, "");
  }

  /** The SAID of a finished event verifies, unless the draft already named that very SAID as a foreign prefix. */
  lemma FinishedSaidVerifies(c: Suite, sad: Json)
    requires DigestLaw(c) && TextLaw(c) && Draft(sad) && DeclaredSize(sad) < 0x100_0000
    requires Build(c, sad).Ok?
    requires SelfAddressing(sad) || Get(sad, "i") != Some(Str(Build(c, sad).value.1))
    ensures VerifySaid(c, Build(c, sad).value.0.sad).Ok?
  {
    hide Get, Set, Print, ToVersionString;
    FinishedEvent(c, sad);
    FixedDraft(sad);
    KeepsIdentity(sad, Stamp(sad));
    VersionField(Finished(c, sad));
    Rebuild(Finished(c, sad), Stamp(sad));
    ComputedSaidVerifies(c, FixVersionString(sad));
  }
}
