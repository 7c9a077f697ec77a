/** What holds of every group and stream that parses, whoever wrote it. */
module GroupLaws {
  import opened Wrappers
  import opened Versions
  import opened Primitives
  import opened Serders
  import opened Counters
  import opened Parsers

  // ---------- strict and lenient ----------

  predicate NoUnknown(atts: seq<Attachment>) {
    forall a :: a in atts ==> !a.Unknown?
  }

  /** The strict result is the lenient one, if that leaves nothing uninterpreted, and otherwise an error. */
  ghost predicate StrictOf(strict: Result<(seq<Attachment>, nat)>, lenient: Result<(seq<Attachment>, nat)>) {
    if lenient.Ok? && NoUnknown(lenient.value.0) then strict == lenient else strict.Err?
  }

  lemma {:induction false} StrictAttachments(c: Suite, data: string, table: Table)
    ensures StrictOf(ParseAttachments(c, data, table, true), ParseAttachments(c, data, table, false))
    decreases |data|, 2, 0
  {
    hide ParseGroup;
    if data != "" && data[0] == '-' {
      StrictGroup(c, data, table);
      var g := ParseGroup(c, data, table, false);
      if g.Ok? {
        StrictAttachments(c, data[g.value.1..], table);
      }
    }
  }

  lemma {:induction false} StrictGroup(c: Suite, data: string, table: Table)
    ensures StrictOf(ParseGroup(c, data, table, true), ParseGroup(c, data, table, false))
    decreases |data|, 1, 0
  {
    hide ParseAttachments, ParseTransGroups, ParseIndexedSigs, ParseQb64Pairs, ParseReceiptCouples, ReadCounter,
         Classify;
    var counter := ReadCounter(data);
    if Ascii(data) && counter.Ok? {
      var body := data[counter.value.size..];
      match Classify(counter.value.code, table) {
        case Some(AttachedMaterialQuadlets) =>
          if counter.value.count * 4 <= |body| {
            StrictAttachments(c, body[..counter.value.count * 4], table);
          }
        case Some(TransIdxSigGroups) =>
          StrictTransGroups(c, body, counter.value.count, table);
        case _ =>
          var raw := data[counter.value.size..];
          assert Unknown(counter.value.code, counter.value.count, raw)
            in [Unknown(counter.value.code, counter.value.count, raw)];
      }
    }
  }

  lemma {:induction false} StrictTransGroups(c: Suite, data: string, count: nat, table: Table)
    ensures ParseTransGroups(c, data, count, table, true) == ParseTransGroups(c, data, count, table, false) ||
      (ParseTransGroups(c, data, count, table, true).Err? && ParseTransGroups(c, data, count, table, false).Err?)
    decreases |data|, 1, count + 1
  {
    hide TransGroups;
    StrictTriples(c, data, count, table);
  }

  lemma {:induction false} StrictTriples(c: Suite, data: string, count: nat, table: Table)
    ensures TransGroups(c, data, count, table, true) == TransGroups(c, data, count, table, false) ||
      (TransGroups(c, data, count, table, true).Err? && TransGroups(c, data, count, table, false).Err?)
    decreases |data|, 1, count
  {
    hide OneTransGroup;
    if count > 0 {
      StrictTriple(c, data, table);
      var one := OneTransGroup(c, data, table, false);
      if one.Ok? {
        StrictTriples(c, data[one.value.1..], count - 1, table);
      }
    }
  }

  /** A signature group never holds anything uninterpreted, in either mode. */
  lemma {:induction false} StrictTriple(c: Suite, data: string, table: Table)
    ensures OneTransGroup(c, data, table, true) == OneTransGroup(c, data, table, false) ||
      (OneTransGroup(c, data, table, true).Err? && OneTransGroup(c, data, table, false).Err?)
    decreases |data|, 0, 0
  {
    hide ParseAttachments, ParseTriple;
    var head := ParseTriple(c, data);
    if head.Ok? {
      StrictAttachments(c, data[head.value.3..], table);
      var inner := ParseAttachments(c, data[head.value.3..], table, false);
      if inner.Ok? && OnlySigs(inner.value.0).Some? {
        SigsAreKnown(inner.value.0);
      }
    }
  }

  lemma {:induction false} SigsAreKnown(atts: seq<Attachment>)
    requires OnlySigs(atts).Some?
    ensures NoUnknown(atts)
  {
    if atts != [] {
      SigsAreKnown(atts[1..]);
      assert atts == [atts[0]] + atts[1..];
    }
  }

  /** Nothing in the messages is uninterpreted. */
  predicate AllKnown(ms: seq<ParsedMessage>) {
    forall m :: m in ms ==> NoUnknown(m.attachments)
  }

  lemma StrictNext(c: Suite, stream: string)
    ensures var strict, lenient := ParseNext(c, stream, true), ParseNext(c, stream, false);
      if lenient.Ok? && NoUnknown(lenient.value.0.attachments) then strict == lenient else strict.Err?
  {
    hide ParseAttachments, FromRaw;
    if stream != "" && SniffKind(stream[0]).Ok? && FromRaw(c, stream).Ok? {
      var serder := FromRaw(c, stream).value;
      StrictAttachments(c, stream[|serder.raw|..], TableOf(serder.version));
    }
  }

  /**
   * Strict parsing of a stream succeeds exactly when lenient parsing does and leaves nothing
   * uninterpreted, and then the messages are the same.
   */
  lemma {:induction false} StrictExactly(c: Suite, stream: string)
    ensures var strict, lenient := ParseAll(c, stream, true), ParseAll(c, stream, false);
      if lenient.Ok? && AllKnown(lenient.value) then strict == lenient else strict.Err?
    decreases |stream|
  {
    hide ParseNext, ParseAll;
    var body := stream[SkipSpace(stream)..];
    MessagesFrom(c, stream, true);
    MessagesFrom(c, stream, false);
    if body == "" {
      return;
    }
    StrictNext(c, body);
    var next := ParseNext(c, body, false);
    if next.Ok? && next.value.1 > 0 {
      var tail := body[next.value.1..];
      StrictExactly(c, tail);
      if ParseAll(c, tail, false).Ok? {
        KnownTogether(next.value.0, ParseAll(c, tail, false).value);
      }
    }
  }

  lemma MessagesFrom(c: Suite, stream: string, strict: bool)
    ensures var body := stream[SkipSpace(stream)..];
      if body == "" then ParseAll(c, stream, strict) == Ok([])
      else
        var next := ParseNext(c, body, strict);
        if next.Err? then ParseAll(c, stream, strict) == Err(next.error)
        else if next.value.1 == 0 then ParseAll(c, stream, strict) == Err(ParseError)
        else
          var rest := ParseAll(c, body[next.value.1..], strict);
          ParseAll(c, stream, strict) ==
            if rest.Err? then Err(rest.error) else Ok([next.value.0] + rest.value)
  {
    hide ParseNext;
  }

  lemma KnownTogether(m: ParsedMessage, rest: seq<ParsedMessage>)
    ensures AllKnown([m] + rest) <==> NoUnknown(m.attachments) && AllKnown(rest)
  {
    hide NoUnknown;
    assert m in [m] + rest;
    assert forall x :: x in [m] + rest <==> x == m || x in rest;
  }

  // ---------- how many ----------

  lemma {:induction false} SigerCount(c: Suite, text: string, n: nat)
    requires Sigers(c, text, n).Ok?
    ensures |Sigers(c, text, n).value.0| == n
    decreases n
  {
    hide ParseSiger;
    if n > 0 {
      SigerCount(c, text[ParseSiger(c, text).value.1..], n - 1);
    }
  }

  lemma {:induction false} PairCount(c: Suite, text: string, n: nat)
    requires Pairs(c, text, n).Ok?
    ensures |Pairs(c, text, n).value.0| == n
    decreases n
  {
    hide OnePair;
    if n > 0 {
      PairCount(c, text[OnePair(c, text).value.1..], n - 1);
    }
  }

  lemma {:induction false} ReceiptCount(c: Suite, text: string, n: nat)
    requires Receipts(c, text, n).Ok?
    ensures |Receipts(c, text, n).value.0| == n
    decreases n
  {
    hide OneReceipt;
    if n > 0 {
      ReceiptCount(c, text[OneReceipt(c, text).value.1..], n - 1);
    }
  }

  lemma {:induction false} TransCount(c: Suite, text: string, n: nat, table: Table, strict: bool)
    requires TransGroups(c, text, n, table, strict).Ok?
    ensures |TransGroups(c, text, n, table, strict).value.0| == n
    ensures forall g :: g in TransGroups(c, text, n, table, strict).value.0 ==> g.sigs != []
    decreases n
  {
    hide ParseAttachments, ParseTriple;
    if n > 0 {
      TransCount(c, text[OneTransGroup(c, text, table, strict).value.1..], n - 1, table, strict);
    }
  }

  /** How many members a group has, if it is a counted one. */
  function Members(a: Attachment): nat {
    match a
    case ControllerSigs(sigs) => |sigs|
    case WitnessSigs(sigs) => |sigs|
    case ReceiptCouples(receipts) => |receipts|
    case FirstSeenReplayCouples(pairs) => |pairs|
    case SealSourceCouples(pairs) => |pairs|
    case TransIdxSigGroups(groups) => |groups|
    case Unknown(_, count, _) => count
  }

  /**
   * Every group that is not a wrapper has exactly as many members as its counter says, at most 4096
   * if they are interpreted, and no transferable signer comes without a signature.
   */
  lemma CountedMembers(c: Suite, data: string, table: Table, strict: bool)
    requires ParseGroup(c, data, table, strict).Ok?
    ensures ReadCounter(data).Ok?
    ensures var counter, atts := ReadCounter(data).value, ParseGroup(c, data, table, strict).value.0;
      Classify(counter.code, table) != Some(AttachedMaterialQuadlets) ==>
        && |atts| == 1 && Members(atts[0]) == counter.count && (atts[0].Unknown? || counter.count <= 4096)
        && (atts[0].TransIdxSigGroups? ==> forall g :: g in atts[0].groups ==> g.sigs != [])
  {
    hide ReadCounter, Classify, Sigers, Pairs, Receipts, TransGroups, ParseAttachments;
    var counter := ReadCounter(data).value;
    var body := data[counter.size..];
    match Classify(counter.code, table)
    case Some(ControllerIdxSigs) => SigerCount(c, body, counter.count);
    case Some(WitnessIdxSigs) => SigerCount(c, body, counter.count);
    case Some(NonTransReceiptCouples) => ReceiptCount(c, body, counter.count);
    case Some(FirstSeenReplayCouples) => PairCount(c, body, counter.count);
    case Some(SealSourceCouples) => PairCount(c, body, counter.count);
    case Some(TransIdxSigGroups) => TransCount(c, body, counter.count, table, strict);
    case _ =>
  }
}
