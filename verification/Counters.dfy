/** CESR group counters: what a code means in each table, and how a counter is written. */
module Counters {
  import opened Wrappers
  import opened Versions

  datatype Table = V1 | V2

  datatype GroupKind =
    | AttachedMaterialQuadlets
    | ControllerIdxSigs
    | WitnessIdxSigs
    | NonTransReceiptCouples
    | TransReceiptQuadruples
    | FirstSeenReplayCouples
    | TransIdxSigGroups
    | SealSourceCouples

  function TableOf(version: Option<Version>): Table {
    if version.Some? && version.value.major >= 2 then V2 else V1
  }

  function KindOf(letter: char, table: Table): Option<GroupKind> {
    match table
    case V1 =>
      (match letter
       case 'A' => Some(ControllerIdxSigs)
       case 'B' => Some(WitnessIdxSigs)
       case 'C' => Some(NonTransReceiptCouples)
       case 'D' => Some(TransReceiptQuadruples)
       case 'E' => Some(FirstSeenReplayCouples)
       case 'F' => Some(TransIdxSigGroups)
       case 'G' => Some(SealSourceCouples)
       case 'V' => Some(AttachedMaterialQuadlets)
       case _ => None)
    case V2 =>
      (match letter
       case 'A' => Some(AttachedMaterialQuadlets)
       case 'B' => Some(ControllerIdxSigs)
       case 'C' => Some(WitnessIdxSigs)
       case 'D' => Some(NonTransReceiptCouples)
       case 'E' => Some(TransReceiptQuadruples)
       case 'F' => Some(FirstSeenReplayCouples)
       case 'G' => Some(SealSourceCouples)
       case _ => None)
  }

  /** The code is a dash, an optional `0` for the big-count form, and one letter. */
  function Classify(code: string, table: Table): Option<GroupKind> {
    if |code| == 3 && code[..2] == "-0" then KindOf(code[2], table)
    else if |code| == 2 && code[0] == '-' then KindOf(code[1], table)
    else None
  }

  function CodeOf(kind: GroupKind, table: Table): Option<string> {
    match (table, kind)
    case (V1, ControllerIdxSigs) => Some("-A")
    case (V1, WitnessIdxSigs) => Some("-B")
    case (V1, NonTransReceiptCouples) => Some("-C")
    case (V1, TransReceiptQuadruples) => Some("-D")
    case (V1, FirstSeenReplayCouples) => Some("-E")
    case (V1, TransIdxSigGroups) => Some("-F")
    case (V1, SealSourceCouples) => Some("-G")
    case (V1, AttachedMaterialQuadlets) => Some("-V")
    case (V2, AttachedMaterialQuadlets) => Some("-A")
    case (V2, ControllerIdxSigs) => Some("-B")
    case (V2, WitnessIdxSigs) => Some("-C")
    case (V2, NonTransReceiptCouples) => Some("-D")
    case (V2, TransReceiptQuadruples) => Some("-E")
    case (V2, FirstSeenReplayCouples) => Some("-F")
    case (V2, SealSourceCouples) => Some("-G")
    case (V2, TransIdxSigGroups) => None
  }

  // ---------- the counter primitive ----------

  datatype Counter = Counter(code: string, count: nat, size: nat)

  function Base64Char(v: nat): char
    requires v < 64
  {
    if v < 26 then (v + 65) as char
    else if v < 52 then (v + 71) as char
    else if v < 62 then (v - 4) as char
    else if v == 62 then '-' else '_'
  }

  function Base64Value(ch: char): Option<nat> {
    if 'A' <= ch <= 'Z' then Some(ch as int - 65)
    else if 'a' <= ch <= 'z' then Some(ch as int - 71)
    else if '0' <= ch <= '9' then Some(ch as int + 4)
    else if ch == '-' then Some(62)
    else if ch == '_' then Some(63)
    else None
  }

  predicate IsLetter(ch: char) {
    'A' <= ch <= 'Z' || 'a' <= ch <= 'z'
  }

  /** `count` in `width` Base64 digits. */
  function CountText(count: nat, width: nat): (s: string)
    ensures |s| == width
  {
    if width == 0 then "" else CountText(count / 64, width - 1) + [Base64Char(count % 64)]
  }

  function CountValue(s: string): Option<nat> {
    if s == "" then Some(0)
    else
      match (CountValue(s[..|s| - 1]), Base64Value(s[|s| - 1]))
      case (Some(high), Some(low)) => Some(high * 64 + low)
      case _ => None
  }

  function Capacity(width: nat): nat {
    if width == 0 then 1 else 64 * Capacity(width - 1)
  }

  function CountWidth(code: string): nat {
    if |code| == 3 then 5 else 2
  }

  predicate IsCounterCode(code: string) {
    || (|code| == 2 && code[0] == '-' && IsLetter(code[1]))
    || (|code| == 3 && code[0] == '-' && code[1] == '0' && IsLetter(code[2]))
  }

  /** `Counter::new(code, count)` in qb64: counts that do not fit the code are refused. */
  function CounterText(code: string, count: nat): Result<string> {
    if !IsCounterCode(code) || count >= Capacity(CountWidth(code)) then Err(ParseError)
    else Ok(code + CountText(count, CountWidth(code)))
  }

  function ReadCounter(text: string): (r: Result<Counter>)
    ensures r.Ok? ==> 0 < r.value.size <= |text|
  {
    var hard := if |text| > 1 && text[1] == '0' then 3 else 2;
    if |text| < hard || !IsCounterCode(text[..hard]) then Err(ParseError)
    else
      var code := text[..hard];
      var size := hard + CountWidth(code);
      if |text| < size then Err(ParseError)
      else
        var count :- OkOr(CountValue(text[hard..size]), ParseError);
        Ok(Counter(code, count, size))
  }

  lemma {:induction false} CountRoundTrip(count: nat, width: nat)
    requires count < Capacity(width)
    ensures CountValue(CountText(count, width)) == Some(count)
    ensures Ascii(CountText(count, width))
  {
    if width > 0 {
      CountRoundTrip(count / 64, width - 1);
      var s := CountText(count, width);
      assert s[..width - 1] == CountText(count / 64, width - 1);
      assert Base64Value(Base64Char(count % 64)) == Some(count % 64);
    }
  }

  /** A counter is read back from the front of any stream it was written to. */
  lemma CounterRoundTrip(code: string, count: nat, rest: string)
    requires CounterText(code, count).Ok?
    ensures var t := CounterText(code, count).value;
      ReadCounter(t + rest) == Ok(Counter(code, count, |t|)) && Ascii(t) && t[0] == '-' && |t| >= 4
  {
    var w := CountWidth(code);
    var t := CounterText(code, count).value;
    CountRoundTrip(count, w);
    assert (t + rest)[..|code|] == code;
    assert (t + rest)[|code|..|code| + w] == CountText(count, w);
  }

  /** Composing and parsing agree on what each code means. */
  lemma CodesAgree(kind: GroupKind, table: Table)
    requires CodeOf(kind, table).Some?
    ensures Classify(CodeOf(kind, table).value, table) == Some(kind)
    ensures IsCounterCode(CodeOf(kind, table).value) && CountWidth(CodeOf(kind, table).value) == 2
  {
  }
}
