/** The record of an identifier, as it is read back from the store. */
module HabRecords {
  import opened Wrappers
  import opened Numerals
  import opened JsonValues
  import opened Primitives
  import opened WireValues
  import opened Habs
  import opened HabEvents

  // ---------- reading ----------

  /** The fields of a `HabState`, in the order of their declaration. */
  const FIELDS: seq<string> := [
    "name", "prefix", "code", "transferable", "signer_gen", "signer_count", "next_gen", "next_count", "key_gen",
    "last_said", "sn", "backer_threshold", "backers"]

  function TextIn(v: Json): Result<string> {
    if v.Str? then Ok(v.s) else Err(Config)
  }

  function FlagIn(v: Json): Result<bool> {
    if v.Bool? then Ok(v.b) else Err(Config)
  }

  /** A `u64` or `usize`: plain decimal digits below 2^64. */
  function CountIn(v: Json): Result<nat> {
    if !v.Number? then Err(Config)
    else
      match Value(v.lexeme, 10)
      case Some(n) => if n < U64 then Ok(n) else Err(Config)
      case None => Err(Config)
  }

  function TextsIn(v: Json): Result<seq<string>> {
    if v.Arr? && forall i :: 0 <= i < |v.items| ==> v.items[i].Str?
    then Ok(seq(|v.items|, i requires 0 <= i < |v.items| => v.items[i].s))
    else Err(Config)
  }

  /** A struct is read from an object by the names of its fields, or from an array by their places. */
  function Parts(v: Json): (r: Result<seq<Json>>)
    ensures r.Ok? ==> |r.value| == |FIELDS|
  {
    match v
    case Obj(_) =>
      if forall i :: 0 <= i < |FIELDS| ==> Get(v, FIELDS[i]).Some?
      then Ok(seq(|FIELDS|, i requires 0 <= i < |FIELDS| && Get(v, FIELDS[i]).Some? => Get(v, FIELDS[i]).value))
      else Err(Config)
    case Arr(items) => if |items| == |FIELDS| then Ok(items) else Err(Config)
    case _ => Err(Config)
  }

  function StateIn(v: Json): Result<HabState> {
    var p :- Parts(v);
    var name :- TextIn(p[0]);
    var prefix :- TextIn(p[1]);
    var code :- TextIn(p[2]);
    var transferable :- FlagIn(p[3]);
    var signerGen :- CountIn(p[4]);
    var signerCount :- CountIn(p[5]);
    var nextGen :- CountIn(p[6]);
    var nextCount :- CountIn(p[7]);
    var keyGen :- CountIn(p[8]);
    var lastSaid :- TextIn(p[9]);
    var sn :- CountIn(p[10]);
    var backerThreshold :- CountIn(p[11]);
    var backers :- TextsIn(p[12]);
    Ok(HabState(name, prefix, code, transferable, signerGen, signerCount, nextGen, nextCount, keyGen, lastSaid, sn,
                backerThreshold, backers))
  }

  /** `serde_json::from_slice` of a stored record. */
  function ReadRecord(c: Suite, raw: string): Result<HabState> {
    match c.decode(raw)
    case Some(v) => StateIn(v)
    case None => Err(Config)
  }

  // ---------- what was stored is read back ----------

  /** Integers of 64 bits are printed in decimal. */
  ghost predicate NumberLaw(c: Suite) {
    forall n: nat :: n < U64 ==> c.isNumber(Format(n, 10))
  }

  /** The strings are UTF-8 and the numbers have 64 bits, as their types in the original have it. */
  ghost predicate Storable(s: HabState) {
    && Utf8(s.name) && Utf8(s.prefix) && Utf8(s.code) && Utf8(s.lastSaid) && Texts(s.backers)
    && s.signerGen < U64 && s.signerCount < U64 && s.nextGen < U64 && s.nextCount < U64 && s.keyGen < U64
    && s.sn < U64 && s.backerThreshold < U64
  }

  function Mark(key: string): nat {
    |key| * 256 + if key == "" then 0 else key[0] as int
  }

  lemma FieldsDiffer(i: nat, j: nat)
    requires i < j < |FIELDS|
    ensures FIELDS[i] != FIELDS[j]
  {
    assert Mark(FIELDS[0]) == 1134 && Mark(FIELDS[1]) == 1648 && Mark(FIELDS[2]) == 1123 && Mark(FIELDS[3]) == 3188;
    assert Mark(FIELDS[4]) == 2675 && Mark(FIELDS[5]) == 3187 && Mark(FIELDS[6]) == 2158 && Mark(FIELDS[7]) == 2670;
    assert Mark(FIELDS[8]) == 1899 && Mark(FIELDS[9]) == 2412 && Mark(FIELDS[10]) == 627 && Mark(FIELDS[11]) == 4194;
    assert Mark(FIELDS[12]) == 1890;
    hide Mark;
    assert Mark(FIELDS[i]) != Mark(FIELDS[j]);
  }

  lemma RecordKeys(s: HabState, i: nat)
    requires i < |FIELDS|
    ensures |HabRecord(s).fields| == |FIELDS| && HabRecord(s).fields[i].key == FIELDS[i]
  {
    hide NumeralOf, Strings;
  }

  lemma RecordApart(s: HabState)
    ensures HabRecord(s).Obj? && DistinctKeys(HabRecord(s).fields)
  {
    hide HabRecord, FIELDS;
    RecordIsObject(s);
    var fields := HabRecord(s).fields;
    RecordKeys(s, 0);
    forall i, j | 0 <= i < j < |fields| ensures fields[i].key != fields[j].key {
      RecordKeys(s, i);
      RecordKeys(s, j);
      FieldsDiffer(i, j);
    }
  }

  lemma RecordIsObject(s: HabState)
    ensures HabRecord(s).Obj? && |FIELDS| == 13
  {
    hide NumeralOf, Strings;
  }

  lemma FieldRead(fields: seq<Field>, i: nat)
    requires DistinctKeys(fields) && i < |fields|
    ensures Get(Obj(fields), fields[i].key) == Some(fields[i].value)
  {
    FindAt(fields, fields[i].key, i);
  }

  lemma RecordParts(s: HabState)
    ensures Parts(HabRecord(s)).Ok?
    ensures |HabRecord(s).fields| == 13 && |Parts(HabRecord(s)).value| == 13
    ensures forall i :: 0 <= i < 13 ==> Parts(HabRecord(s)).value[i] == HabRecord(s).fields[i].value
  {
    hide HabRecord, FIELDS, Get, DistinctKeys;
    RecordIsObject(s);
    RecordApart(s);
    RecordKeys(s, 0);
    forall i | 0 <= i < 13 ensures Get(HabRecord(s), FIELDS[i]) == Some(HabRecord(s).fields[i].value) {
      RecordKeys(s, i);
      FieldRead(HabRecord(s).fields, i);
    }
  }

  lemma CountRead(n: nat)
    requires n < U64
    ensures CountIn(Number(NumeralOf(n))) == Ok(n)
  {
    FormatValue(n, 10);
  }

  lemma TextsRead(xs: seq<string>)
    ensures TextsIn(Strings(xs)) == Ok(xs)
  {
    var v := Strings(xs);
    assert forall i :: 0 <= i < |v.items| ==> v.items[i].Str? && v.items[i].s == xs[i];
    assert TextsIn(v).value == xs;
  }

  lemma RecordValues(s: HabState)
    ensures var f := HabRecord(s).fields;
      && |f| == 13 && f[0].value == Str(s.name) && f[1].value == Str(s.prefix) && f[2].value == Str(s.code)
      && f[3].value == Bool(s.transferable) && f[4].value == Number(NumeralOf(s.signerGen))
      && f[5].value == Number(NumeralOf(s.signerCount)) && f[6].value == Number(NumeralOf(s.nextGen))
      && f[7].value == Number(NumeralOf(s.nextCount)) && f[8].value == Number(NumeralOf(s.keyGen))
      && f[9].value == Str(s.lastSaid) && f[10].value == Number(NumeralOf(s.sn))
      && f[11].value == Number(NumeralOf(s.backerThreshold)) && f[12].value == Strings(s.backers)
  {
    hide NumeralOf, Strings;
  }

  /** Every field of a record is read back from the value it is stored as. */
  lemma RecordReads(s: HabState)
    requires Storable(s)
    ensures StateIn(HabRecord(s)) == Ok(s)
  {
    hide HabRecord, Parts, CountIn, TextsIn, NumeralOf, Strings, Utf8, Texts, FIELDS;
    RecordParts(s);
    RecordValues(s);
    CountRead(s.signerGen);
    CountRead(s.signerCount);
    CountRead(s.nextGen);
    CountRead(s.nextCount);
    CountRead(s.keyGen);
    CountRead(s.sn);
    CountRead(s.backerThreshold);
    TextsRead(s.backers);
  }

  lemma FieldsAreText(i: nat)
    requires i < |FIELDS|
    ensures Utf8(FIELDS[i])
  {
    hide Utf8;
    forall k | 0 <= k < |FIELDS[i]| ensures FIELDS[i][k] as int < 128 {}
    AsciiIsUtf8(FIELDS[i]);
  }

  lemma NumberReads(c: Suite, n: nat)
    requires NumberLaw(c) && n < U64
    ensures WellFormed(c, Number(NumeralOf(n)), MAX_DEPTH - 1)
  {
    assert NumeralOf(n) == Format(n, 10);
  }

  lemma TextReads(c: Suite, s: string)
    requires Utf8(s)
    ensures WellFormed(c, Str(s), MAX_DEPTH - 1)
  {
  }

  lemma ValuesWellFormed(c: Suite, s: HabState, i: nat)
    requires NumberLaw(c) && Storable(s) && i < 13
    ensures |HabRecord(s).fields| == 13 && WellFormed(c, HabRecord(s).fields[i].value, MAX_DEPTH - 1)
  {
    RecordValues(s);
    hide HabRecord, NumeralOf, Strings, Utf8, Texts, WellFormed, NumberLaw;
    TextReads(c, s.name);
    TextReads(c, s.prefix);
    TextReads(c, s.code);
    TextReads(c, s.lastSaid);
    NumberReads(c, s.signerGen);
    NumberReads(c, s.signerCount);
    NumberReads(c, s.nextGen);
    NumberReads(c, s.nextCount);
    NumberReads(c, s.keyGen);
    NumberReads(c, s.sn);
    NumberReads(c, s.backerThreshold);
    StringsReady(c, s.backers);
    FlagReads(c, s.transferable);
  }

  lemma FlagReads(c: Suite, b: bool)
    ensures WellFormed(c, Bool(b), MAX_DEPTH - 1)
  {
  }

  lemma RecordWellFormed(c: Suite, s: HabState)
    requires NumberLaw(c) && Storable(s)
    ensures WellFormed(c, HabRecord(s), MAX_DEPTH)
  {
    hide HabRecord, FIELDS, NumberLaw, Storable, DistinctKeys, Utf8;
    RecordIsObject(s);
    RecordApart(s);
    RecordKeys(s, 0);
    var fields := HabRecord(s).fields;
    forall i | 0 <= i < |fields| ensures Utf8(fields[i].key) && WellFormed(c, fields[i].value, MAX_DEPTH - 1) {
      RecordKeys(s, i);
      FieldsAreText(i);
      ValuesWellFormed(c, s, i);
    }
    ObjectWellFormed(c, HabRecord(s));
  }

  lemma ObjectWellFormed(c: Suite, v: Json)
    requires v.Obj? && DistinctKeys(v.fields)
    requires forall i :: 0 <= i < |v.fields| ==>
      Utf8(v.fields[i].key) && WellFormed(c, v.fields[i].value, MAX_DEPTH - 1)
    ensures WellFormed(c, v, MAX_DEPTH)
  {
    hide DistinctKeys, Utf8;
  }

  /** Reading a record gives back the state it was made from, whatever the state. */
  lemma RecordRoundTrip(c: Suite, s: HabState)
    requires DecodeLaw(c) && NumberLaw(c) && Storable(s)
    ensures ReadRecord(c, Print(HabRecord(s))) == Ok(s)
  {
    hide Print, HabRecord, WellFormed, Storable, NumberLaw, StateIn;
    RecordWellFormed(c, s);
    RecordReads(s);
  }
}
