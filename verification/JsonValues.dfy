/**
 * JSON values and their compact rendering (`serde_json::to_vec` with field order preserved).
 *
 * A Rust `String` and a byte buffer are both modelled as a Dafny string holding one `char`
 * per UTF-8 byte, so lengths are byte lengths.
 */
module JsonValues {
  import opened Wrappers
  import Numerals

  predicate IsNumeralChar(ch: char) {
    '0' <= ch <= '9' || ch == '+' || ch == '-' || ch == '.' || ch == 'e' || ch == 'E'
  }

  predicate IsNumeral(s: string) {
    s != "" && forall ch :: ch in s ==> IsNumeralChar(ch)
  }

  type Numeral = s: string | IsNumeral(s) witness "0"

  datatype Json =
    | Null
    | Bool(b: bool)
    | Number(lexeme: Numeral)
    | Str(s: string)
    | Arr(items: seq<Json>)
    | Obj(fields: seq<Field>)

  datatype Field = Field(key: string, value: Json)

  // ---------- object access ----------

  function Find(fields: seq<Field>, key: string): (i: nat)
    ensures i <= |fields|
    ensures i < |fields| ==> fields[i].key == key
    ensures forall j :: 0 <= j < i ==> fields[j].key != key
  {
    if fields == [] || fields[0].key == key then 0 else 1 + Find(fields[1..], key)
  }

  /** `Value::get`: `None` when the value is not an object or has no such field. */
  function Get(v: Json, key: string): Option<Json> {
    if v.Obj? && Find(v.fields, key) < |v.fields| then Some(v.fields[Find(v.fields, key)].value) else None
  }

  /** `Map::insert` with order preserved: overwrite in place, or append. */
  function Insert(fields: seq<Field>, key: string, value: Json): (r: seq<Field>)
    ensures Find(r, key) == Find(fields, key) < |r|
    ensures |r| == if Find(fields, key) < |fields| then |fields| else |fields| + 1
  {
    var i := Find(fields, key);
    var r := if i < |fields| then fields[i := Field(key, value)] else fields + [Field(key, value)];
    FindAt(r, key, i);
    r
  }

  function Set(v: Json, key: string, value: Json): (r: Json)
    requires v.Obj?
    ensures r.Obj?
  {
    Obj(Insert(v.fields, key, value))
  }

  function StrOf(v: Json): Option<string> {
    if v.Str? then Some(v.s) else None
  }

  function GetStr(v: Json, key: string): Option<string> {
    match Get(v, key)
    case Some(w) => StrOf(w)
    case None => None
  }

  lemma {:induction false} FindAt(fields: seq<Field>, key: string, i: nat)
    requires i < |fields| && fields[i].key == key
    requires forall j :: 0 <= j < i ==> fields[j].key != key
    ensures Find(fields, key) == i
  {
    if i > 0 {
      FindAt(fields[1..], key, i - 1);
    }
  }

  lemma {:induction false} FindAbsent(fields: seq<Field>, key: string)
    requires forall j :: 0 <= j < |fields| ==> fields[j].key != key
    ensures Find(fields, key) == |fields|
  {
    if fields != [] {
      FindAbsent(fields[1..], key);
    }
  }

  /** Reading back a field after writing one: the written field has the new value, the others are untouched. */
  lemma GetSet(v: Json, key: string, value: Json, other: string)
    requires v.Obj?
    ensures Get(Set(v, key, value), key) == Some(value)
    ensures other != key ==> Get(Set(v, key, value), other) == Get(v, other)
  {
    if other != key {
      var r, i := Insert(v.fields, key, value), Find(v.fields, other);
      if i < |v.fields| {
        FindAt(r, other, i);
      } else {
        FindAbsent(r, other);
      }
    }
  }

  /** Overwriting a field and then restoring its value gives back the very same object. */
  lemma SetRestore(v: Json, key: string, value: Json)
    requires v.Obj? && Get(v, key).Some?
    ensures Set(Set(v, key, value), key, Get(v, key).value) == v
  {
    var i := Find(v.fields, key);
    assert Insert(Insert(v.fields, key, value), key, v.fields[i].value) == v.fields;
  }

  lemma SetTwice(v: Json, key: string, a: Json, b: Json)
    requires v.Obj?
    ensures Set(Set(v, key, a), key, b) == Set(v, key, b)
  {
    assert Insert(Insert(v.fields, key, a), key, b) == Insert(v.fields, key, b);
  }

  /** Writes to two different existing fields commute. */
  lemma SetCommutes(v: Json, k: string, a: Json, l: string, b: Json)
    requires v.Obj? && k != l && Get(v, k).Some? && Get(v, l).Some?
    ensures Set(Set(v, k, a), l, b) == Set(Set(v, l, b), k, a)
  {
    GetSet(v, k, a, l);
    GetSet(v, l, b, k);
    var i, j := Find(v.fields, k), Find(v.fields, l);
    FindAt(Insert(v.fields, k, a), l, j);
    FindAt(Insert(v.fields, l, b), k, i);
    assert Insert(Insert(v.fields, k, a), l, b) == Insert(Insert(v.fields, l, b), k, a);
  }

  // ---------- rendering ----------

  function EscapeChar(ch: char): (e: string)
    ensures |e| >= 1 && e[0] != '"'
  {
    if ch == '"' then "\\\""
    else if ch == '\\' then "\\\\"
    else if ch as int == 8 then "\\b"
    else if ch as int == 9 then "\\t"
    else if ch as int == 10 then "\\n"
    else if ch as int == 12 then "\\f"
    else if ch as int == 13 then "\\r"
    else if ch as int < 32 then "\\u00" + [Numerals.DigitChar(ch as int / 16), Numerals.DigitChar(ch as int % 16)]
    else [ch]
  }

  function Escape(s: string): string {
    if s == "" then "" else EscapeChar(s[0]) + Escape(s[1..])
  }

  function Quote(s: string): string {
    "\"" + Escape(s) + "\""
  }

  function Print(v: Json): string {
    match v
    case Null => "null"
    case Bool(b) => if b then "true" else "false"
    case Number(l) => l
    case Str(s) => Quote(s)
    case Arr(items) => if items == [] then "[]" else "[" + (Print(items[0]) + PrintItems(items[1..]))
    case Obj(fields) => if fields == [] then "{}" else "{" + (PrintField(fields[0]) + PrintFields(fields[1..]))
  }

  /** The remaining items of an array, each behind a comma, and the closing bracket. */
  function PrintItems(items: seq<Json>): string {
    if items == [] then "]" else "," + (Print(items[0]) + PrintItems(items[1..]))
  }

  function PrintField(f: Field): string {
    Quote(f.key) + (":" + Print(f.value))
  }

  function PrintFields(fields: seq<Field>): string {
    if fields == [] then "}" else "," + (PrintField(fields[0]) + PrintFields(fields[1..]))
  }

  // ---------- the rendering is uniquely decodable ----------

  lemma Assoc(a: string, b: string, c: string)
    ensures (a + b) + c == a + (b + c)
  {
  }

  lemma Cancel(a: string, b: string, r: string, s: string)
    requires a + r == b + s && |a| == |b|
    ensures a == b && r == s
  {
    assert a == (a + r)[..|a|] == b;
    assert r == (a + r)[|a|..] == s;
  }

  lemma EscapeCharUnique(a: char, b: char, r: string, s: string)
    requires EscapeChar(a) + r == EscapeChar(b) + s
    ensures a == b && r == s
  {
    var t, u := EscapeChar(a) + r, EscapeChar(b) + s;
    assert t[0] == u[0];
    if |EscapeChar(a)| > 1 || |EscapeChar(b)| > 1 {
      assert t[1] == u[1];
      if |EscapeChar(a)| > 2 && |EscapeChar(b)| > 2 {
        assert t[4] == u[4] && t[5] == u[5];
      }
    }
    assert a == b;
    assert r == t[|EscapeChar(a)|..] == s;
  }

  lemma {:induction false} EscapeUnique(a: string, b: string, r: string, s: string)
    requires Escape(a) + ("\"" + r) == Escape(b) + ("\"" + s)
    ensures a == b && r == s
    decreases |a|
  {
    var q, p := "\"" + r, "\"" + s;
    assert "" + q == q && "" + p == p;
    if a == "" && b == "" {
      Cancel("\"", "\"", r, s);
    } else if a == "" || b == "" {
      if a == "" { EscapeStart(b, p, q); } else { EscapeStart(a, q, p); }
    } else {
      var ea, eb := Escape(a[1..]), Escape(b[1..]);
      Assoc(EscapeChar(a[0]), ea, q);
      Assoc(EscapeChar(b[0]), eb, p);
      EscapeCharUnique(a[0], b[0], ea + q, eb + p);
      EscapeUnique(a[1..], b[1..], r, s);
      assert a == [a[0]] + a[1..] && b == [b[0]] + b[1..];
    }
  }

  /** Escaped text never starts like the closing quote. */
  lemma EscapeStart(a: string, r: string, q: string)
    requires a != "" && q != "" && q[0] == '"'
    ensures Escape(a) + r != q
  {
    assert (Escape(a) + r)[0] == EscapeChar(a[0])[0];
  }

  lemma QuoteUnique(a: string, b: string, r: string, s: string)
    requires Quote(a) + r == Quote(b) + s
    ensures a == b && r == s
  {
    Unquote(a, r);
    Unquote(b, s);
    Cancel("\"", "\"", Escape(a) + ("\"" + r), Escape(b) + ("\"" + s));
    EscapeUnique(a, b, r, s);
  }

  lemma Unquote(a: string, r: string)
    ensures Quote(a) + r == "\"" + (Escape(a) + ("\"" + r))
  {
    Assoc("\"" + Escape(a), "\"", r);
    Assoc("\"", Escape(a), "\"" + r);
  }

  /** What may follow a complete value inside a larger rendering. */
  predicate Delimited(rest: string) {
    rest == "" || rest[0] == ',' || rest[0] == ']' || rest[0] == '}'
  }

  lemma ShorterNumeral(a: string, b: Numeral, r: string, s: string)
    requires a + r == b + s && |a| < |b|
    ensures !Delimited(r)
  {
    assert b[|a|] == (a + r)[|a|] == r[0];
    assert b[|a|] in b;
  }

  lemma NumeralUnique(a: Numeral, b: Numeral, r: string, s: string)
    requires Delimited(r) && Delimited(s) && a + r == b + s
    ensures a == b && r == s
  {
    if |a| < |b| {
      ShorterNumeral(a, b, r, s);
    } else if |b| < |a| {
      ShorterNumeral(b, a, s, r);
    } else {
      assert a == (a + r)[..|a|] == b;
      assert r == (a + r)[|a|..] == s;
    }
  }

  function Tag(v: Json): nat {
    match v
    case Null => 0
    case Bool(b) => if b then 1 else 2
    case Number(_) => 3
    case Str(_) => 4
    case Arr(_) => 5
    case Obj(_) => 6
  }

  function TagOfChar(ch: char): nat {
    match ch
    case 'n' => 0
    case 't' => 1
    case 'f' => 2
    case '"' => 4
    case '[' => 5
    case '{' => 6
    case _ => 3
  }

  lemma FirstChar(v: Json)
    ensures Print(v) != "" && Tag(v) == TagOfChar(Print(v)[0]) && !Delimited(Print(v))
  {
    if v.Number? {
      assert v.lexeme[0] in v.lexeme;
    }
  }

  lemma Bracketed(open: string, a: string, b: string, r: string)
    ensures (open + (a + b)) + r == open + (a + (b + r))
  {
    Assoc(open, a + b, r);
    Assoc(a, b, r);
  }

  lemma DifferentHeads(a: string, b: string, r: string, s: string)
    requires a != "" && b != "" && a[0] != b[0]
    ensures a + r != b + s
  {
    assert (a + r)[0] != (b + s)[0];
  }

  /** No two values render to the same text, whatever follows them. */
  lemma {:induction false} PrintUnique(v: Json, w: Json, r: string, s: string)
    requires Print(v) + r == Print(w) + s && Delimited(r) && Delimited(s)
    ensures v == w && r == s
    decreases v
  {
    FirstChar(v);
    FirstChar(w);
    if Print(v)[0] != Print(w)[0] && !(v.Number? && w.Number?) {
      DifferentHeads(Print(v), Print(w), r, s);
    }
    match v
    case Number(l) => NumeralUnique(l, w.lexeme, r, s);
    case Str(x) => QuoteUnique(x, w.s, r, s);
    case Arr(a) => ArrayUnique(a, w.items, r, s);
    case Obj(a) => ObjectUnique(a, w.fields, r, s);
    case _ => Cancel(Print(v), Print(w), r, s);
  }

  lemma EmptyArray(a: seq<Json>, r: string, s: string)
    requires a != []
    ensures Print(Arr(a)) + r != "[]" + s
  {
    FirstChar(a[0]);
    assert (Print(Arr(a)) + r)[1] == Print(a[0])[0];
    assert ("[]" + s)[1] == ']';
  }

  lemma EmptyObject(a: seq<Field>, r: string, s: string)
    requires a != []
    ensures Print(Obj(a)) + r != "{}" + s
  {
    assert (Print(Obj(a)) + r)[1] == '"';
    assert ("{}" + s)[1] == '}';
  }

  lemma {:induction false} ArrayUnique(a: seq<Json>, b: seq<Json>, r: string, s: string)
    requires Print(Arr(a)) + r == Print(Arr(b)) + s
    ensures a == b && r == s
    decreases a, 1
  {
    if a == [] && b == [] {
      Cancel("[]", "[]", r, s);
    } else if a == [] || b == [] {
      if a == [] { EmptyArray(b, s, r); } else { EmptyArray(a, r, s); }
    } else {
      FirstItemUnique("[", a, b, r, s);
    }
  }

  /** Two non-empty lists of items behind the same one-byte opener. */
  lemma {:induction false} FirstItemUnique(open: string, a: seq<Json>, b: seq<Json>, r: string, s: string)
    requires a != [] && b != [] && |open| == 1
    requires (open + (Print(a[0]) + PrintItems(a[1..]))) + r == (open + (Print(b[0]) + PrintItems(b[1..]))) + s
    ensures a == b && r == s
    decreases a, 0
  {
    var pa, pb, qa, qb := Print(a[0]), Print(b[0]), PrintItems(a[1..]), PrintItems(b[1..]);
    Bracketed(open, pa, qa, r);
    Bracketed(open, pb, qb, s);
    Cancel(open, open, pa + (qa + r), pb + (qb + s));
    PrintUnique(a[0], b[0], qa + r, qb + s);
    ItemsUnique(a[1..], b[1..], r, s);
    assert a == [a[0]] + a[1..] && b == [b[0]] + b[1..];
  }

  lemma {:induction false} ItemsUnique(a: seq<Json>, b: seq<Json>, r: string, s: string)
    requires PrintItems(a) + r == PrintItems(b) + s
    ensures a == b && r == s
    decreases a, 1
  {
    if a == [] && b == [] {
      Cancel("]", "]", r, s);
    } else if a == [] || b == [] {
      DifferentHeads(PrintItems(a), PrintItems(b), r, s);
    } else {
      FirstItemUnique(",", a, b, r, s);
    }
  }

  lemma {:induction false} FieldUnique(f: Field, g: Field, r: string, s: string)
    requires PrintField(f) + r == PrintField(g) + s && Delimited(r) && Delimited(s)
    ensures f == g && r == s
    decreases f
  {
    var pf, pg := Print(f.value), Print(g.value);
    Assoc(Quote(f.key), ":" + pf, r);
    Assoc(Quote(g.key), ":" + pg, s);
    QuoteUnique(f.key, g.key, (":" + pf) + r, (":" + pg) + s);
    Assoc(":", pf, r);
    Assoc(":", pg, s);
    Cancel(":", ":", pf + r, pg + s);
    PrintUnique(f.value, g.value, r, s);
  }

  lemma {:induction false} ObjectUnique(a: seq<Field>, b: seq<Field>, r: string, s: string)
    requires Print(Obj(a)) + r == Print(Obj(b)) + s
    ensures a == b && r == s
    decreases a, 1
  {
    if a == [] && b == [] {
      Cancel("{}", "{}", r, s);
    } else if a == [] || b == [] {
      if a == [] { EmptyObject(b, s, r); } else { EmptyObject(a, r, s); }
    } else {
      FirstFieldUnique("{", a, b, r, s);
    }
  }

  lemma {:induction false} FirstFieldUnique(open: string, a: seq<Field>, b: seq<Field>, r: string, s: string)
    requires a != [] && b != [] && |open| == 1
    requires (open + (PrintField(a[0]) + PrintFields(a[1..]))) + r ==
      (open + (PrintField(b[0]) + PrintFields(b[1..]))) + s
    ensures a == b && r == s
    decreases a, 0
  {
    var pa, pb, qa, qb := PrintField(a[0]), PrintField(b[0]), PrintFields(a[1..]), PrintFields(b[1..]);
    Bracketed(open, pa, qa, r);
    Bracketed(open, pb, qb, s);
    Cancel(open, open, pa + (qa + r), pb + (qb + s));
    FieldUnique(a[0], b[0], qa + r, qb + s);
    FieldsUnique(a[1..], b[1..], r, s);
    assert a == [a[0]] + a[1..] && b == [b[0]] + b[1..];
  }

  lemma {:induction false} FieldsUnique(a: seq<Field>, b: seq<Field>, r: string, s: string)
    requires PrintFields(a) + r == PrintFields(b) + s
    ensures a == b && r == s
    decreases a, 1
  {
    if a == [] && b == [] {
      Cancel("}", "}", r, s);
    } else if a == [] || b == [] {
      DifferentHeads(PrintFields(a), PrintFields(b), r, s);
    } else {
      FirstFieldUnique(",", a, b, r, s);
    }
  }

  lemma PrintInjective(v: Json, w: Json)
    requires Print(v) == Print(w)
    ensures v == w
  {
    assert Print(v) + "" == Print(w) + "";
    PrintUnique(v, w, "", "");
  }

  // ---------- lengths ----------

  /** Overwriting one field changes the length of the whole by exactly the change in that field. */
  lemma {:induction false} PrintFieldsLength(fields: seq<Field>, i: nat, value: Json)
    requires i < |fields|
    ensures |PrintFields(fields[i := Field(fields[i].key, value)])| + |Print(fields[i].value)|
         == |PrintFields(fields)| + |Print(value)|
  {
    var r := fields[i := Field(fields[i].key, value)];
    if i == 0 {
      assert r[1..] == fields[1..];
    } else {
      assert r[1..] == fields[1..][i - 1 := Field(fields[i].key, value)];
      PrintFieldsLength(fields[1..], i - 1, value);
    }
  }

  lemma SetLength(v: Json, key: string, value: Json)
    requires v.Obj? && Get(v, key).Some?
    ensures |Print(Set(v, key, value))| + |Print(Get(v, key).value)| == |Print(v)| + |Print(value)|
  {
    PrintFieldsLength(v.fields, Find(v.fields, key), value);
    ObjectLength(v.fields);
    ObjectLength(Set(v, key, value).fields);
  }

  lemma ObjectLength(fields: seq<Field>)
    requires fields != []
    ensures |Print(Obj(fields))| == |PrintFields(fields)|
  {
  }

  /** Text in which no byte needs escaping. */
  predicate Plain(s: string) {
    forall ch :: ch in s ==> ch as int >= 32 && ch != '"' && ch != '\\'
  }

  lemma {:induction false} PlainEscape(s: string)
    requires Plain(s)
    ensures Escape(s) == s
  {
    if s != "" {
      forall ch | ch in s[1..] ensures ch in s {}
      PlainEscape(s[1..]);
      assert s[0] in s;
      assert s == [s[0]] + s[1..];
    }
  }
}
