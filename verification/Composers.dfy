/** Building messages for a stream, and the theorem that parsing undoes it. */
module Composers {
  import opened Wrappers
  import opened Versions
  import opened Primitives
  import opened Serders
  import opened WireValues
  import opened Counters
  import opened Parsers
  import opened ParserLoops

  // ---------- composing ----------

  function CodeFor(serder: Serder, kind: GroupKind): Result<string> {
    OkOr(CodeOf(kind, TableOf(serder.version)), ParseError)
  }

  function SigText(sigs: seq<Siger>): string {
    if sigs == [] then "" else sigs[0].qb64 + SigText(sigs[1..])
  }

  /** A body followed by one counted group of indexed signatures, if there are any. */
  function WithSigs(serder: Serder, kind: GroupKind, sigs: seq<Siger>): Result<string> {
    if sigs == [] then Ok(serder.raw)
    else
      var code :- CodeFor(serder, kind);
      var counter :- CounterText(code, |sigs|);
      Ok(serder.raw + (counter + SigText(sigs)))
  }

  function WithReceipt(serder: Serder, prefix: string, cigar: string): Result<string> {
    var code :- CodeFor(serder, NonTransReceiptCouples);
    var counter :- CounterText(code, 1);
    Ok(serder.raw + (counter + (prefix + cigar)))
  }

  method AppendSigs(output: string, sigs: seq<Siger>) returns (r: string)
    ensures r == output + SigText(sigs)
  {
    r := output;
    var i := 0;
    assert sigs[0..] == sigs;
    while i < |sigs|
      invariant 0 <= i <= |sigs|
      invariant r + SigText(sigs[i..]) == output + SigText(sigs)
    {
      assert sigs[i..][1..] == sigs[i + 1..];
      assert r + (sigs[i].qb64 + SigText(sigs[i + 1..])) == (r + sigs[i].qb64) + SigText(sigs[i + 1..]);
      r := r + sigs[i].qb64;
      i := i + 1;
    }
    assert r + "" == r;
  }

  /** `compose_event` and `compose_witness_sigs`, by the kind of signature. */
  method ComposeSigned(serder: Serder, kind: GroupKind, sigs: seq<Siger>) returns (r: Result<string>)
    ensures r == WithSigs(serder, kind, sigs)
  {
    var output := serder.raw;
    if sigs != [] {
      var code := CodeFor(serder, kind);
      if code.Err? {
        return Err(code.error);
      }
      var counter := CounterText(code.value, |sigs|);
      if counter.Err? {
        return Err(counter.error);
      }
      output := output + counter.value;
      output := AppendSigs(output, sigs);
      assert (serder.raw + counter.value) + SigText(sigs) == serder.raw + (counter.value + SigText(sigs));
    }
    r := Ok(output);
  }

  method ComposeReceipt(serder: Serder, prefix: string, cigar: string) returns (r: Result<string>)
    ensures r == WithReceipt(serder, prefix, cigar)
  {
    var output := serder.raw;
    var code := CodeFor(serder, NonTransReceiptCouples);
    if code.Err? {
      return Err(code.error);
    }
    var counter := CounterText(code.value, 1);
    if counter.Err? {
      return Err(counter.error);
    }
    output := output + counter.value;
    output := output + prefix;
    output := output + cigar;
    assert ((serder.raw + counter.value) + prefix) + cigar == serder.raw + (counter.value + (prefix + cigar));
    r := Ok(output);
  }

  // ---------- what can be sent ----------

  /** A signature whose text the code tables and the codec agree on. */
  predicate GoodSiger(c: Suite, s: Siger) {
    var q := s.qb64;
    && |q| >= MIN_PRIMITIVE && Ascii(q)
    && c.hardage(q[0]).Some? && c.hardage(q[0]).value <= |q|
    && c.indexerSize(q[..c.hardage(q[0]).value]) == Some(|q|) && c.indexer(q) == Some(s)
  }

  predicate GoodMatter(c: Suite, q: string) {
    && |q| >= MIN_PRIMITIVE && Ascii(q)
    && c.hardage(q[0]).Some? && c.hardage(q[0]).value <= |q|
    && c.matterSize(q[..c.hardage(q[0]).value]) == Some(|q|)
  }

  /** A versioned ASCII JSON body that declares its own length. */
  predicate Readable(c: Suite, s: Serder) {
    && FromRaw(c, s.raw) == Ok(s) && ExtractVersion(s.raw) == s.version
    && s.version.Some? && s.version.value.size == |s.raw|
    && s.raw != "" && s.raw[0] == '{' && Ascii(s.raw)
  }

  /** One attachment group, by what it carries in qb64. */
  datatype Group =
    | SigGroup(kind: GroupKind, sigs: seq<Siger>)
    | ReceiptGroup(receipts: seq<(string, string)>)
    | PairGroup(kind: GroupKind, pairs: seq<(string, string)>)
    | TransSigGroup(signers: seq<TransGroup>)

  predicate GoodPair(c: Suite, q: (string, string)) {
    GoodMatter(c, q.0) && GoodMatter(c, q.1)
  }

  /** A signer's prefix, sequence number and SAID, and at least one signature. */
  predicate GoodTrans(c: Suite, g: TransGroup) {
    && GoodMatter(c, g.prefix) && GoodMatter(c, g.sn) && GoodMatter(c, g.said) && g.prefix[0] != '-'
    && 0 < |g.sigs| < 4096 && forall s :: s in g.sigs ==> GoodSiger(c, s)
  }

  predicate GoodGroup(c: Suite, g: Group, table: Table) {
    match g
    case SigGroup(kind, sigs) =>
      && (kind == ControllerIdxSigs || kind == WitnessIdxSigs)
      && |sigs| < 4096 && forall s :: s in sigs ==> GoodSiger(c, s)
    case ReceiptGroup(receipts) =>
      |receipts| < 4096 && forall w :: w in receipts ==> GoodPair(c, w) && c.matterRaw(w.1).Some?
    case PairGroup(kind, pairs) =>
      && (kind == GroupKind.FirstSeenReplayCouples || kind == GroupKind.SealSourceCouples)
      && |pairs| < 4096 && forall w :: w in pairs ==> GoodPair(c, w)
    case TransSigGroup(_) =>
      table == V1 && 0 < |g.signers| < 4096 && forall x :: x in g.signers ==> GoodTrans(c, x)
  }

  function KindOfGroup(g: Group): GroupKind {
    match g
    case SigGroup(kind, _) => kind
    case ReceiptGroup(_) => NonTransReceiptCouples
    case PairGroup(kind, _) => kind
    case TransSigGroup(_) => GroupKind.TransIdxSigGroups
  }

  function CountOf(g: Group): nat {
    match g
    case SigGroup(_, sigs) => |sigs|
    case ReceiptGroup(receipts) => |receipts|
    case PairGroup(_, pairs) => |pairs|
    case TransSigGroup(signers) => |signers|
  }

  function PairText(pairs: seq<(string, string)>): string {
    if pairs == [] then "" else (pairs[0].0 + pairs[0].1) + PairText(pairs[1..])
  }

  /** Behind each signer's triple comes a group of its signatures. */
  function TransText(signers: seq<TransGroup>): Result<string> {
    if signers == [] then Ok("")
    else
      var g := signers[0];
      var counter :- CounterText("-A", |g.sigs|);
      var rest :- TransText(signers[1..]);
      Ok((g.prefix + (g.sn + (g.said + (counter + SigText(g.sigs))))) + rest)
  }

  function MembersText(g: Group): Result<string> {
    match g
    case SigGroup(_, sigs) => Ok(SigText(sigs))
    case ReceiptGroup(receipts) => Ok(PairText(receipts))
    case PairGroup(_, pairs) => Ok(PairText(pairs))
    case TransSigGroup(signers) => TransText(signers)
  }

  function GroupText(g: Group, table: Table): Result<string> {
    var code :- OkOr(CodeOf(KindOfGroup(g), table), ParseError);
    var counter :- CounterText(code, CountOf(g));
    var members :- MembersText(g);
    Ok(counter + members)
  }

  function GroupsText(gs: seq<Group>, table: Table): Result<string> {
    if gs == [] then Ok("")
    else
      var text :- GroupText(gs[0], table);
      var rest :- GroupsText(gs[1..], table);
      Ok(text + rest)
  }

  /** The witness prefixes with the decoded signatures. */
  function Decoded(c: Suite, receipts: seq<(string, string)>): (r: seq<(string, string)>)
    requires forall w :: w in receipts ==> c.matterRaw(w.1).Some?
    ensures |r| == |receipts|
    ensures forall i :: 0 <= i < |r| ==> r[i] == (receipts[i].0, c.matterRaw(receipts[i].1).value)
  {
    seq(|receipts|, i requires 0 <= i < |receipts| => (receipts[i].0, c.matterRaw(receipts[i].1).value))
  }

  /** What the receiver should make of a group. */
  function AttachmentOf(c: Suite, g: Group, table: Table): Attachment
    requires GoodGroup(c, g, table)
  {
    match g
    case SigGroup(kind, sigs) => if kind == ControllerIdxSigs then ControllerSigs(sigs) else WitnessSigs(sigs)
    case ReceiptGroup(receipts) => ReceiptCouples(Decoded(c, receipts))
    case PairGroup(kind, pairs) =>
      if kind == GroupKind.SealSourceCouples then Attachment.SealSourceCouples(pairs)
      else Attachment.FirstSeenReplayCouples(pairs)
    case TransSigGroup(signers) => Attachment.TransIdxSigGroups(signers)
  }

  /** A transferable group swallows every group behind it, so it can only come last. */
  predicate GoodGroups(c: Suite, gs: seq<Group>, table: Table) {
    && (forall g :: g in gs ==> GoodGroup(c, g, table))
    && forall i :: 0 <= i < |gs| - 1 ==> !gs[i].TransSigGroup?
  }

  function AttachmentsOf(c: Suite, gs: seq<Group>, table: Table): (r: seq<Attachment>)
    requires GoodGroups(c, gs, table)
    ensures |r| == |gs| && forall i :: 0 <= i < |gs| ==> r[i] == AttachmentOf(c, gs[i], table)
  {
    seq(|gs|, i requires 0 <= i < |gs| => AttachmentOf(c, gs[i], table))
  }

  datatype Piece =
    | Signed(serder: Serder, sigs: seq<Siger>)
    | Witnessed(serder: Serder, sigs: seq<Siger>)
    | Receipted(serder: Serder, prefix: string, cigar: string)
    | Attached(serder: Serder, groups: seq<Group>)

  /** The groups behind the body. */
  function GroupsOf(p: Piece): seq<Group> {
    match p
    case Signed(_, sigs) => if sigs == [] then [] else [SigGroup(ControllerIdxSigs, sigs)]
    case Witnessed(_, sigs) => if sigs == [] then [] else [SigGroup(WitnessIdxSigs, sigs)]
    case Receipted(_, prefix, cigar) => [ReceiptGroup([(prefix, cigar)])]
    case Attached(_, groups) => groups
  }

  predicate Sendable(c: Suite, p: Piece) {
    Readable(c, p.serder) && GoodGroups(c, GroupsOf(p), TableOf(p.serder.version))
  }

  function Compose(p: Piece): Result<string> {
    match p
    case Signed(serder, sigs) => WithSigs(serder, ControllerIdxSigs, sigs)
    case Witnessed(serder, sigs) => WithSigs(serder, WitnessIdxSigs, sigs)
    case Receipted(serder, prefix, cigar) => WithReceipt(serder, prefix, cigar)
    case Attached(serder, groups) =>
      var text :- GroupsText(groups, TableOf(serder.version));
      Ok(serder.raw + text)
  }

  /** What the receiver should end up with. */
  function Received(c: Suite, p: Piece): ParsedMessage
    requires Sendable(c, p)
  {
    ParsedMessage(p.serder, AttachmentsOf(c, GroupsOf(p), TableOf(p.serder.version)))
  }

  // ---------- reading groups back ----------

  lemma AsciiAppend(a: string, b: string)
    ensures Ascii(a + b) <==> Ascii(a) && Ascii(b)
  {
    if Ascii(a + b) {
      forall ch | ch in a ensures ch as int < 128 { assert ch in a + b; }
      forall ch | ch in b ensures ch as int < 128 { assert ch in a + b; }
    }
  }

  lemma Split(a: string, b: string)
    ensures (a + b)[|a|..] == b && (a + b)[..|a|] == a
  {
  }

  lemma Reassociate(a: string, b: string, d: string)
    ensures (a + b) + d == a + (b + d)
  {
  }

  lemma SigerRead(c: Suite, s: Siger, rest: string)
    requires GoodSiger(c, s)
    ensures ParseSiger(c, s.qb64 + rest) == Ok((s, |s.qb64|))
  {
    var q := s.qb64;
    Split(q, rest);
    assert (q + rest)[..c.hardage(q[0]).value] == q[..c.hardage(q[0]).value];
  }

  lemma MatterRead(c: Suite, q: string, rest: string)
    requires GoodMatter(c, q)
    ensures ParseMatter(c, q + rest) == Ok((q, |q|))
  {
    Split(q, rest);
    assert (q + rest)[..c.hardage(q[0]).value] == q[..c.hardage(q[0]).value];
  }

  lemma {:induction false} SigersRead(c: Suite, sigs: seq<Siger>, rest: string)
    requires forall s :: s in sigs ==> GoodSiger(c, s)
    ensures Sigers(c, SigText(sigs) + rest, |sigs|) == Ok((sigs, |SigText(sigs)|))
    ensures Ascii(SigText(sigs)) && |SigText(sigs)| >= MIN_PRIMITIVE * |sigs|
  {
    hide ParseSiger;
    if sigs != [] {
      var s, more := sigs[0], sigs[1..];
      assert s in sigs;
      forall x | x in more ensures GoodSiger(c, x) { assert x in sigs; }
      SigersRead(c, more, rest);
      Reassociate(s.qb64, SigText(more), rest);
      SigerRead(c, s, SigText(more) + rest);
      Split(s.qb64, SigText(more) + rest);
      AsciiAppend(s.qb64, SigText(more));
      assert sigs == [s] + more;
    }
  }

  lemma GroupOpens(kind: GroupKind, table: Table, count: nat, rest: string)
    requires CodeOf(kind, table).Some? && count < 4096
    ensures CounterText(CodeOf(kind, table).value, count).Ok?
    ensures var t := CounterText(CodeOf(kind, table).value, count).value;
      && ReadCounter(t + rest).Ok? && (t + rest)[ReadCounter(t + rest).value.size..] == rest
      && Classify(ReadCounter(t + rest).value.code, table) == Some(kind)
      && ReadCounter(t + rest).value.count == count && ReadCounter(t + rest).value.size == |t|
      && Ascii(t) && |t| > 0 && t[0] == '-'
  {
    CodesAgree(kind, table);
    assert Capacity(2) == 4096 by { assert Capacity(0) == 1 && Capacity(1) == 64; }
    CounterRoundTrip(CodeOf(kind, table).value, count, rest);
    Split(CounterText(CodeOf(kind, table).value, count).value, rest);
  }

  /** What `ParseGroup` does once its counter is known. */
  lemma GroupByKind(c: Suite, data: string, table: Table, strict: bool)
    requires Ascii(data) && ReadCounter(data).Ok?
    ensures var n := ReadCounter(data).value;
      var kind, body := Classify(n.code, table), data[n.size..];
      && (kind == Some(ControllerIdxSigs) && ParseIndexedSigs(c, body, n.count).Ok? ==>
            ParseGroup(c, data, table, strict) ==
              Ok(([ControllerSigs(ParseIndexedSigs(c, body, n.count).value.0)],
                  n.size + ParseIndexedSigs(c, body, n.count).value.1)))
      && (kind == Some(WitnessIdxSigs) && ParseIndexedSigs(c, body, n.count).Ok? ==>
            ParseGroup(c, data, table, strict) ==
              Ok(([WitnessSigs(ParseIndexedSigs(c, body, n.count).value.0)],
                  n.size + ParseIndexedSigs(c, body, n.count).value.1)))
      && (kind == Some(NonTransReceiptCouples) && ParseReceiptCouples(c, body, n.count).Ok? ==>
            ParseGroup(c, data, table, strict) ==
              Ok(([ReceiptCouples(ParseReceiptCouples(c, body, n.count).value.0)],
                  n.size + ParseReceiptCouples(c, body, n.count).value.1)))
      && (kind == Some(GroupKind.FirstSeenReplayCouples) && ParseQb64Pairs(c, body, n.count).Ok? ==>
            ParseGroup(c, data, table, strict) ==
              Ok(([Attachment.FirstSeenReplayCouples(ParseQb64Pairs(c, body, n.count).value.0)],
                  n.size + ParseQb64Pairs(c, body, n.count).value.1)))
      && (kind == Some(GroupKind.SealSourceCouples) && ParseQb64Pairs(c, body, n.count).Ok? ==>
            ParseGroup(c, data, table, strict) ==
              Ok(([Attachment.SealSourceCouples(ParseQb64Pairs(c, body, n.count).value.0)],
                  n.size + ParseQb64Pairs(c, body, n.count).value.1)))
      && (kind == Some(GroupKind.TransIdxSigGroups) && ParseTransGroups(c, body, n.count, table, strict).Ok? ==>
            ParseGroup(c, data, table, strict) ==
              Ok(([Attachment.TransIdxSigGroups(ParseTransGroups(c, body, n.count, table, strict).value.0)],
                  n.size + ParseTransGroups(c, body, n.count, table, strict).value.1)))
  {
    hide Ascii, ReadCounter, Classify, ParseIndexedSigs, ParseReceiptCouples, ParseAttachments, ParseTransGroups,
         ParseQb64Pairs;
  }

  lemma IndexedSigsRead(c: Suite, sigs: seq<Siger>, rest: string)
    requires |sigs| < 4096 && (forall s :: s in sigs ==> GoodSiger(c, s)) && Ascii(SigText(sigs) + rest)
    ensures ParseIndexedSigs(c, SigText(sigs) + rest, |sigs|) == Ok((sigs, |SigText(sigs)|))
  {
    SigersRead(c, sigs, rest);
    hide Sigers, SigText, GoodSiger, Ascii;
  }

  lemma SigKindsHaveCodes(kind: GroupKind, table: Table)
    requires kind == ControllerIdxSigs || kind == WitnessIdxSigs
    ensures CodeOf(kind, table).Some?
  {
  }

  /** A composed signature group in front of any ASCII rest is parsed to exactly its signatures. */
  lemma SigGroupRead(c: Suite, kind: GroupKind, table: Table, sigs: seq<Siger>, rest: string, strict: bool)
    requires kind == ControllerIdxSigs || kind == WitnessIdxSigs
    requires |sigs| < 4096 && (forall s :: s in sigs ==> GoodSiger(c, s)) && Ascii(rest)
    ensures CodeOf(kind, table).Some? && CounterText(CodeOf(kind, table).value, |sigs|).Ok?
    ensures var group := CounterText(CodeOf(kind, table).value, |sigs|).value + SigText(sigs);
      && group != "" && group[0] == '-' && Ascii(group)
      && ParseGroup(c, group + rest, table, strict)
         == Ok(([if kind == ControllerIdxSigs then ControllerSigs(sigs) else WitnessSigs(sigs)], |group|))
  {
    hide CodeOf, CounterText, ReadCounter, Classify, SigText, GoodSiger, Sigers, Ascii, ParseGroup, ParseIndexedSigs;
    var text := SigText(sigs);
    var more := text + rest;
    SigKindsHaveCodes(kind, table);
    GroupOpens(kind, table, |sigs|, more);
    SigersRead(c, sigs, rest);
    var t := CounterText(CodeOf(kind, table).value, |sigs|).value;
    AsciiAppend(text, rest);
    AsciiAppend(t, more);
    AsciiAppend(t, text);
    IndexedSigsRead(c, sigs, rest);
    GroupByKind(c, t + more, table, strict);
    Reassociate(t, text, rest);
  }

  lemma MatterIsAscii(c: Suite, q: string)
    requires GoodMatter(c, q)
    ensures Ascii(q) && |q| >= MIN_PRIMITIVE
  {
    hide Ascii;
  }

  lemma OnePairRead(c: Suite, w: (string, string), rest: string)
    requires GoodPair(c, w)
    ensures OnePair(c, (w.0 + w.1) + rest) == Ok((w, |w.0 + w.1|))
    ensures Ascii(w.0 + w.1) && |w.0 + w.1| >= 2 * MIN_PRIMITIVE
  {
    hide GoodMatter, ParseMatter, Ascii;
    Reassociate(w.0, w.1, rest);
    MatterRead(c, w.0, w.1 + rest);
    Split(w.0, w.1 + rest);
    MatterRead(c, w.1, rest);
    MatterIsAscii(c, w.0);
    MatterIsAscii(c, w.1);
    AsciiAppend(w.0, w.1);
  }

  lemma PairsStep(c: Suite, text: string, n: nat, w: (string, string), k: nat, more: seq<(string, string)>, l: nat)
    requires n > 0 && OnePair(c, text) == Ok((w, k)) && Pairs(c, text[k..], n - 1) == Ok((more, l))
    ensures Pairs(c, text, n) == Ok(([w] + more, k + l))
  {
    hide OnePair;
  }

  lemma {:induction false} PairsRead(c: Suite, pairs: seq<(string, string)>, rest: string)
    requires forall w :: w in pairs ==> GoodPair(c, w)
    ensures Pairs(c, PairText(pairs) + rest, |pairs|) == Ok((pairs, |PairText(pairs)|))
    ensures Ascii(PairText(pairs)) && |PairText(pairs)| >= 2 * MIN_PRIMITIVE * |pairs|
  {
    hide OnePair, GoodPair, Ascii, Pairs, PairText;
    PairTextStep(pairs);
    if pairs == [] {
      NothingIsAscii();
      NoPairs(c, "" + rest);
    } else {
      var w, more := pairs[0], pairs[1..];
      assert w in pairs;
      forall x | x in more ensures GoodPair(c, x) { assert x in pairs; }
      PairsRead(c, more, rest);
      Reassociate(w.0 + w.1, PairText(more), rest);
      OnePairRead(c, w, PairText(more) + rest);
      Split(w.0 + w.1, PairText(more) + rest);
      AsciiAppend(w.0 + w.1, PairText(more));
      PairsStep(c, PairText(pairs) + rest, |pairs|, w, |w.0 + w.1|, more, |PairText(more)|);
      assert pairs == [w] + more;
    }
  }

  lemma PairTextStep(pairs: seq<(string, string)>)
    ensures PairText(pairs) == if pairs == [] then "" else (pairs[0].0 + pairs[0].1) + PairText(pairs[1..])
  {
  }

  lemma NoPairs(c: Suite, text: string)
    ensures Pairs(c, text, 0) == Ok(([], 0))
  {
  }

  lemma NothingIsAscii()
    ensures Ascii("")
  {
  }

  /** Receipt couples are pairs whose second member is decoded. */
  lemma {:induction false} PairsToReceipts(c: Suite, text: string, n: nat)
    requires Pairs(c, text, n).Ok? && forall w :: w in Pairs(c, text, n).value.0 ==> c.matterRaw(w.1).Some?
    ensures Receipts(c, text, n) == Ok((Decoded(c, Pairs(c, text, n).value.0), Pairs(c, text, n).value.1))
    decreases n
  {
    hide Pairs, Receipts, OnePair, Decoded;
    if n > 0 {
      FirstPair(c, text, n);
      var one := OnePair(c, text).value;
      var more := Pairs(c, text[one.1..], n - 1).value;
      DecodedStep(c, one.0, more.0);
      PairsToReceipts(c, text[one.1..], n - 1);
      ReceiptsStep(c, text, n, one.0, one.1, Decoded(c, more.0), more.1);
    } else {
      NothingDecoded(c);
      NoPairs(c, text);
      NoReceipts(c, text);
    }
  }

  lemma ReceiptsStep(c: Suite, text: string, n: nat, w: (string, string), k: nat, more: seq<(string, string)>, l: nat)
    requires n > 0 && OnePair(c, text) == Ok((w, k)) && c.matterRaw(w.1).Some?
    requires Receipts(c, text[k..], n - 1) == Ok((more, l))
    ensures Receipts(c, text, n) == Ok(([(w.0, c.matterRaw(w.1).value)] + more, k + l))
  {
    hide OnePair;
  }

  lemma NoReceipts(c: Suite, text: string)
    ensures Receipts(c, text, 0) == Ok(([], 0))
  {
  }

  lemma FirstPair(c: Suite, text: string, n: nat)
    requires n > 0 && Pairs(c, text, n).Ok?
    ensures OnePair(c, text).Ok? && Pairs(c, text[OnePair(c, text).value.1..], n - 1).Ok?
    ensures var one := OnePair(c, text).value; var more, all := Pairs(c, text[one.1..], n - 1).value, Pairs(c, text, n);
      all == Ok(([one.0] + more.0, one.1 + more.1)) && one.0 in all.value.0 &&
      forall w :: w in more.0 ==> w in all.value.0
  {
    hide OnePair;
  }

  lemma DecodedStep(c: Suite, w: (string, string), more: seq<(string, string)>)
    requires c.matterRaw(w.1).Some? && forall x :: x in more ==> c.matterRaw(x.1).Some?
    ensures Decoded(c, [w] + more) == [(w.0, c.matterRaw(w.1).value)] + Decoded(c, more)
  {
  }

  lemma NothingDecoded(c: Suite)
    ensures Decoded(c, []) == []
  {
  }

  /** Attachment parsing stops in front of anything but a counter. */
  predicate NoCounterAhead(rest: string) {
    rest == "" || rest[0] != '-'
  }

  /** One group and then no more. */
  lemma OneGroup(c: Suite, group: string, att: seq<Attachment>, rest: string, table: Table, strict: bool)
    requires group != "" && group[0] == '-' && NoCounterAhead(rest)
    requires ParseGroup(c, group + rest, table, strict) == Ok((att, |group|))
    ensures ParseAttachments(c, group + rest, table, strict) == Ok((att, |group|))
  {
    AttachmentsStep(c, group + rest, table, strict);
    Split(group, rest);
    AttachmentsStep(c, rest, table, strict);
    JoinEnd(att, |group|);
  }

  // ---------- transferable groups ----------

  function OneTransText(g: TransGroup): Result<string> {
    var counter :- CounterText("-A", |g.sigs|);
    Ok(g.prefix + (g.sn + (g.said + (counter + SigText(g.sigs)))))
  }

  lemma TransStep(signers: seq<TransGroup>)
    requires signers != [] && OneTransText(signers[0]).Ok? && TransText(signers[1..]).Ok?
    ensures TransText(signers) == Ok(OneTransText(signers[0]).value + TransText(signers[1..]).value)
  {
    hide CounterText, SigText;
  }

  lemma TripleRead(c: Suite, g: TransGroup, rest: string)
    requires GoodMatter(c, g.prefix) && GoodMatter(c, g.sn) && GoodMatter(c, g.said)
    ensures ParseTriple(c, g.prefix + (g.sn + (g.said + rest))) ==
      Ok((g.prefix, g.sn, g.said, |g.prefix| + |g.sn| + |g.said|))
    ensures (g.prefix + (g.sn + (g.said + rest)))[|g.prefix| + |g.sn| + |g.said|..] == rest
  {
    hide GoodMatter, ParseMatter;
    var data := g.prefix + (g.sn + (g.said + rest));
    MatterRead(c, g.prefix, g.sn + (g.said + rest));
    Split(g.prefix, g.sn + (g.said + rest));
    MatterRead(c, g.sn, g.said + rest);
    assert data[|g.prefix| + |g.sn|..] == g.said + rest;
    MatterRead(c, g.said, rest);
  }

  lemma OnlyTheseSigs(sigs: seq<Siger>)
    ensures OnlySigs([ControllerSigs(sigs)]) == Some(sigs)
  {
    assert [ControllerSigs(sigs)][1..] == [];
    assert sigs + [] == sigs;
  }

  lemma TransOneRead(c: Suite, g: TransGroup, rest: string, strict: bool)
    requires GoodTrans(c, g) && Ascii(rest) && NoCounterAhead(rest)
    ensures OneTransText(g).Ok?
    ensures var text := OneTransText(g).value;
      && OneTransGroup(c, text + rest, V1, strict) == Ok((g, |text|))
      && text != "" && text[0] != '-' && Ascii(text)
  {
    hide ParseTriple, ParseAttachments, ParseGroup, GoodMatter, GoodSiger, Ascii, SigText, CounterText, OnlySigs;
    SigGroupRead(c, ControllerIdxSigs, V1, g.sigs, rest, strict);
    var group := CounterText("-A", |g.sigs|).value + SigText(g.sigs);
    OneGroup(c, group, [ControllerSigs(g.sigs)], rest, V1, strict);
    OnlyTheseSigs(g.sigs);
    TripleRead(c, g, group + rest);
    var text := g.prefix + (g.sn + (g.said + group));
    assert text + rest == g.prefix + (g.sn + (g.said + (group + rest)));
    MatterIsAscii(c, g.prefix);
    MatterIsAscii(c, g.sn);
    MatterIsAscii(c, g.said);
    AsciiAppend(g.said, group);
    AsciiAppend(g.sn, g.said + group);
    AsciiAppend(g.prefix, g.sn + (g.said + group));
  }

  lemma {:induction false} TransRead(c: Suite, signers: seq<TransGroup>, rest: string, strict: bool)
    requires (forall g :: g in signers ==> GoodTrans(c, g)) && Ascii(rest) && NoCounterAhead(rest)
    ensures TransText(signers).Ok?
    ensures var text := TransText(signers).value;
      && TransGroups(c, text + rest, |signers|, V1, strict) == Ok((signers, |text|))
      && Ascii(text) && NoCounterAhead(text + rest)
  {
    hide OneTransGroup, OneTransText, GoodTrans, Ascii, TransGroups, TransText;
    if signers == [] {
      NothingIsAscii();
      NoTrans(c, "" + rest, strict);
      assert "" + rest == rest;
    } else {
      var g, more := signers[0], signers[1..];
      assert g in signers;
      forall x | x in more ensures GoodTrans(c, x) { assert x in signers; }
      TransRead(c, more, rest, strict);
      var after := TransText(more).value;
      AsciiAppend(after, rest);
      TransOneRead(c, g, after + rest, strict);
      var one := OneTransText(g).value;
      TransStep(signers);
      AsciiAppend(one, after);
      Reassociate(one, after, rest);
      Split(one, after + rest);
      TransGroupsStep(c, TransText(signers).value + rest, |signers|, strict, g, |one|, more, |after|);
      assert signers == [g] + more;
    }
  }

  lemma TransGroupsStep(c: Suite, text: string, n: nat, strict: bool, g: TransGroup, k: nat, more: seq<TransGroup>,
                        l: nat)
    requires n > 0 && OneTransGroup(c, text, V1, strict) == Ok((g, k))
    requires TransGroups(c, text[k..], n - 1, V1, strict) == Ok((more, l))
    ensures TransGroups(c, text, n, V1, strict) == Ok(([g] + more, k + l))
  {
    hide OneTransGroup;
  }

  lemma NoTrans(c: Suite, text: string, strict: bool)
    ensures TransGroups(c, text, 0, V1, strict) == Ok(([], 0))
    ensures TransText([]) == Ok("")
  {
  }

  // ---------- any groups ----------

  /** What `ParseGroup` needs to know of the members of a group. */
  lemma MembersRead(c: Suite, g: Group, table: Table, rest: string, strict: bool)
    requires GoodGroup(c, g, table) && Ascii(rest) && (g.TransSigGroup? ==> NoCounterAhead(rest))
    ensures MembersText(g).Ok? && Ascii(MembersText(g).value)
    ensures var text := MembersText(g).value;
      match g
      case SigGroup(_, sigs) => ParseIndexedSigs(c, text + rest, |sigs|) == Ok((sigs, |text|))
      case ReceiptGroup(receipts) =>
        ParseReceiptCouples(c, text + rest, |receipts|) == Ok((Decoded(c, receipts), |text|))
      case PairGroup(_, pairs) => ParseQb64Pairs(c, text + rest, |pairs|) == Ok((pairs, |text|))
      case TransSigGroup(_) =>
        ParseTransGroups(c, text + rest, |g.signers|, table, strict) == Ok((g.signers, |text|))
  {
    hide GoodPair, GoodTrans, GoodSiger, Ascii, SigText, PairText, TransText, Sigers, Pairs, Receipts, TransGroups;
    match g
    case SigGroup(_, sigs) =>
      SigersRead(c, sigs, rest);
      AsciiAppend(SigText(sigs), rest);
      IndexedSigsRead(c, sigs, rest);
    case ReceiptGroup(receipts) =>
      PairsRead(c, receipts, rest);
      PairsToReceipts(c, PairText(receipts) + rest, |receipts|);
      AsciiAppend(PairText(receipts), rest);
    case PairGroup(_, pairs) =>
      PairsRead(c, pairs, rest);
      AsciiAppend(PairText(pairs), rest);
    case TransSigGroup(_) =>
      TransRead(c, g.signers, rest, strict);
      AsciiAppend(TransText(g.signers).value, rest);
  }

  lemma GroupHasCode(c: Suite, g: Group, table: Table)
    requires GoodGroup(c, g, table)
    ensures CodeOf(KindOfGroup(g), table).Some? && CountOf(g) < 4096
  {
    hide GoodPair, GoodTrans, GoodSiger;
  }

  /** A written group in front of any ASCII rest is parsed to exactly what it carries. */
  lemma GroupRead(c: Suite, g: Group, table: Table, rest: string, strict: bool)
    requires GoodGroup(c, g, table) && Ascii(rest) && (g.TransSigGroup? ==> NoCounterAhead(rest))
    ensures GroupText(g, table).Ok?
    ensures var text := GroupText(g, table).value;
      && text != "" && text[0] == '-' && Ascii(text)
      && ParseGroup(c, text + rest, table, strict) == Ok(([AttachmentOf(c, g, table)], |text|))
  {
    hide CodeOf, CounterText, ReadCounter, Classify, Ascii, ParseGroup, ParseIndexedSigs, ParseReceiptCouples,
         ParseQb64Pairs, ParseTransGroups, GoodPair, GoodTrans, GoodSiger, MembersText, NoCounterAhead;
    GroupHasCode(c, g, table);
    MembersRead(c, g, table, rest, strict);
    var members := MembersText(g).value;
    GroupOpens(KindOfGroup(g), table, CountOf(g), members + rest);
    var t := CounterText(CodeOf(KindOfGroup(g), table).value, CountOf(g)).value;
    AsciiAppend(members, rest);
    AsciiAppend(t, members + rest);
    AsciiAppend(t, members);
    Reassociate(t, members, rest);
    GroupByKind(c, t + (members + rest), table, strict);
  }

  /** Any written groups, and then no more. */
  lemma {:induction false} GroupsRead(c: Suite, gs: seq<Group>, table: Table, rest: string, strict: bool)
    requires GoodGroups(c, gs, table) && Ascii(rest) && NoCounterAhead(rest)
    ensures GroupsText(gs, table).Ok?
    ensures var text := GroupsText(gs, table).value;
      && Ascii(text) && (text != "" ==> text[0] == '-')
      && ParseAttachments(c, text + rest, table, strict) == Ok((AttachmentsOf(c, gs, table), |text|))
  {
    hide GoodGroup, GroupText, Ascii, ParseGroup, ParseAttachments, AttachmentOf;
    if gs == [] {
      NothingIsAscii();
      assert "" + rest == rest;
      AttachmentsStep(c, rest, table, strict);
      assert AttachmentsOf(c, gs, table) == [];
    } else {
      var g, more := gs[0], gs[1..];
      assert g in gs;
      forall x | x in more ensures GoodGroup(c, x, table) { assert x in gs; }
      GroupsRead(c, more, table, rest, strict);
      var after := GroupsText(more, table).value;
      AsciiAppend(after, rest);
      LastSwallows(gs, after, rest, table);
      GroupRead(c, g, table, after + rest, strict);
      var text := GroupText(g, table).value;
      AsciiAppend(text, after);
      Reassociate(text, after, rest);
      Split(text, after + rest);
      AttachmentsStep(c, text + (after + rest), table, strict);
      assert AttachmentsOf(c, gs, table) == [AttachmentOf(c, g, table)] + AttachmentsOf(c, more, table);
    }
  }

  lemma LastSwallows(gs: seq<Group>, after: string, rest: string, table: Table)
    requires gs != [] && GroupsText(gs[1..], table) == Ok(after) && NoCounterAhead(rest)
    requires forall i :: 0 <= i < |gs| - 1 ==> !gs[i].TransSigGroup?
    ensures gs[0].TransSigGroup? ==> NoCounterAhead(after + rest)
  {
    if gs[0].TransSigGroup? {
      assert gs[1..] == [];
      assert "" + rest == rest;
    }
  }

  // ---------- reading bodies back ----------

  lemma {:induction false} TagStaysFirst(a: string, b: string, i: nat)
    requires a <= b && i <= |a| && FirstTag(a, i).Some?
    ensures FirstTag(b, i) == FirstTag(a, i)
    decreases |a| - i
  {
    if i < |a| {
      if i + 4 <= |a| {
        assert a[i..i + 4] == b[i..i + 4];
      } else {
        NoTagNearEnd(a, i);
      }
      if !TagAt(a, i) {
        TagStaysFirst(a, b, i + 1);
      }
    }
  }

  lemma {:induction false} NoTagNearEnd(a: string, i: nat)
    requires i + 4 > |a|
    ensures FirstTag(a, i) == None
    decreases |a| - i
  {
    if i < |a| {
      NoTagNearEnd(a, i + 1);
    }
  }

  lemma VersionStays(a: string, rest: string)
    requires ExtractVersion(a).Some?
    ensures ExtractVersion(a + rest) == ExtractVersion(a)
  {
    var w := if |a| < SEARCH_WINDOW then a else a[..SEARCH_WINDOW];
    var data := a + rest;
    var w2 := if |data| < SEARCH_WINDOW then data else data[..SEARCH_WINDOW];
    assert w <= w2 by {
      assert w2[..|w|] == w;
    }
    TagStaysFirst(w, w2, 0);
    var pos := FirstTag(w, 0).value;
    hide FirstTag, ParseStr;
    assert data[pos..pos + FULL_SIZE] == a[pos..pos + FULL_SIZE];
  }

  lemma BodyRead(c: Suite, s: Serder, rest: string)
    requires Readable(c, s)
    ensures FromRaw(c, s.raw + rest) == Ok(s)
  {
    VersionStays(s.raw, rest);
    Split(s.raw, rest);
    assert s.raw[..|s.raw|] == s.raw;
    hide ExtractVersion, ParseStr, Ascii;
  }

  lemma ReadableStart(c: Suite, s: Serder)
    requires Readable(c, s)
    ensures s.raw != "" && s.raw[0] == '{'
  {
    hide FromRaw, ExtractVersion, Ascii;
  }

  lemma NextByParts(c: Suite, stream: string, s: Serder, att: (seq<Attachment>, nat), strict: bool)
    requires stream != "" && stream[0] == '{' && FromRaw(c, stream) == Ok(s) && |s.raw| <= |stream|
    requires ParseAttachments(c, stream[|s.raw|..], TableOf(s.version), strict) == Ok(att)
    ensures ParseNext(c, stream, strict) == Ok((ParsedMessage(s, att.0), |s.raw| + att.1))
  {
    hide FromRaw, ParseAttachments;
  }

  lemma MessageRead(c: Suite, s: Serder, group: string, att: seq<Attachment>, rest: string, strict: bool)
    requires Readable(c, s)
    requires ParseAttachments(c, group + rest, TableOf(s.version), strict) == Ok((att, |group|))
    ensures ParseNext(c, (s.raw + group) + rest, strict) == Ok((ParsedMessage(s, att), |s.raw + group|))
  {
    hide FromRaw, ParseAttachments, ParseNext, Readable;
    var more := group + rest;
    ReadableStart(c, s);
    assert (s.raw + more)[0] == s.raw[0];
    BodyRead(c, s, more);
    Reassociate(s.raw, group, rest);
    Split(s.raw, more);
    NextByParts(c, s.raw + more, s, (att, |group|), strict);
  }

  /** However a message is composed, its groups are written behind its body. */
  lemma ComposedText(c: Suite, p: Piece)
    requires Sendable(c, p) && GroupsText(GroupsOf(p), TableOf(p.serder.version)).Ok?
    ensures Compose(p) == Ok(p.serder.raw + GroupsText(GroupsOf(p), TableOf(p.serder.version)).value)
  {
    hide Readable, GoodGroups, CounterText, CodeOf, SigText, PairText;
    var gs := GroupsOf(p);
    if gs == [] {
      assert p.serder.raw + "" == p.serder.raw;
    } else if !p.Attached? {
      assert gs[1..] == [];
      var text := GroupText(gs[0], TableOf(p.serder.version)).value;
      assert text + "" == text;
      if p.Receipted? {
        OnePairText(p.prefix, p.cigar);
      }
    }
  }

  lemma OnePairText(a: string, b: string)
    ensures PairText([(a, b)]) == a + b
  {
    assert [(a, b)][1..] == [];
    assert (a + b) + "" == a + b;
  }

  /** One composed message in front of any further ASCII text is received exactly. */
  lemma PieceRead(c: Suite, p: Piece, rest: string, strict: bool)
    requires Sendable(c, p) && Ascii(rest) && NoCounterAhead(rest)
    ensures Compose(p).Ok? && Ascii(Compose(p).value) && Compose(p).value != "" && Compose(p).value[0] == '{'
    ensures ParseNext(c, Compose(p).value + rest, strict) == Ok((Received(c, p), |Compose(p).value|))
  {
    hide ParseNext, ParseAttachments, GroupsText, FromRaw, ExtractVersion, Ascii, GoodGroups, Compose, GroupsOf;
    var s, gs := p.serder, GroupsOf(p);
    var table := TableOf(s.version);
    GroupsRead(c, gs, table, rest, strict);
    ComposedText(c, p);
    var text := GroupsText(gs, table).value;
    MessageRead(c, s, text, AttachmentsOf(c, gs, table), rest, strict);
    AsciiAppend(s.raw, text);
  }

  // ---------- whole streams ----------

  /** Optional whitespace and a message behind it. */
  datatype Spaced = Spaced(space: string, piece: Piece)

  predicate Blanks(s: string) {
    forall ch :: ch in s ==> IsSpace(ch)
  }

  predicate AllSendable(c: Suite, ps: seq<Spaced>) {
    forall p :: p in ps ==> Blanks(p.space) && Sendable(c, p.piece)
  }

  function StreamText(ps: seq<Spaced>, tail: string): Result<string> {
    if ps == [] then Ok(tail)
    else
      var text :- Compose(ps[0].piece);
      var rest :- StreamText(ps[1..], tail);
      Ok(ps[0].space + (text + rest))
  }

  function AllReceived(c: Suite, ps: seq<Spaced>): seq<ParsedMessage>
    requires AllSendable(c, ps)
  {
    if ps == [] then [] else [Received(c, ps[0].piece)] + AllReceived(c, ps[1..])
  }

  lemma BlanksAscii(space: string, rest: string)
    requires Blanks(space)
    ensures Ascii(space) && (space != "" ==> NoCounterAhead(space + rest))
  {
    if space != "" {
      assert space[0] in space;
    }
  }

  lemma {:induction false} BlanksSkipped(c: Suite, space: string, rest: string, strict: bool)
    requires Blanks(space)
    ensures ParseAll(c, space + rest, strict) == ParseAll(c, rest, strict)
  {
    hide ParseAll, IsSpace;
    if space == "" {
      assert space + rest == rest;
    } else {
      var text, more := space + rest, space[1..];
      assert space[0] in space;
      forall ch | ch in more ensures IsSpace(ch) { assert ch in space; }
      SpaceStep(c, text, strict);
      assert text[1..] == more + rest;
      BlanksSkipped(c, more, rest, strict);
    }
  }

  /**
   * Stream round trip: any composed messages, with whitespace around them, are all composed,
   * and parsing the whole stream yields exactly those bodies and attachments, in order, in
   * strict and lenient mode and under both counter tables.
   */
  lemma {:induction false} StreamRoundTrip(c: Suite, ps: seq<Spaced>, tail: string, strict: bool)
    requires AllSendable(c, ps) && Blanks(tail)
    ensures StreamText(ps, tail).Ok?
    ensures Ascii(StreamText(ps, tail).value) && NoCounterAhead(StreamText(ps, tail).value)
    ensures ParseAll(c, StreamText(ps, tail).value, strict) == Ok(AllReceived(c, ps))
    decreases |ps|
  {
    hide ParseAll, ParseNext, Sendable, Compose, Received, Ascii, IsSpace;
    if ps == [] {
      BlanksSkipped(c, tail, "", strict);
      BlanksAscii(tail, "");
      assert tail + "" == tail;
      MessagesStep(c, "", strict);
    } else {
      var p, more := ps[0], ps[1..];
      assert p in ps;
      forall q | q in more ensures Blanks(q.space) && Sendable(c, q.piece) { assert q in ps; }
      StreamRoundTrip(c, more, tail, strict);
      var rest := StreamText(more, tail).value;
      PieceRead(c, p.piece, rest, strict);
      var text := Compose(p.piece).value;
      BlanksSkipped(c, p.space, text + rest, strict);
      BlanksAscii(p.space, text + rest);
      MessageThenRest(c, text, Received(c, p.piece), rest, strict);
      AsciiAppend(text, rest);
      AsciiAppend(p.space, text + rest);
      assert p.space == "" ==> p.space + (text + rest) == text + rest;
    }
  }

  lemma MessageThenRest(c: Suite, text: string, msg: ParsedMessage, rest: string, strict: bool)
    requires text != "" && text[0] == '{' && ParseNext(c, text + rest, strict) == Ok((msg, |text|))
    ensures ParseAll(c, text + rest, strict) == Append([msg], ParseAll(c, rest, strict))
  {
    hide ParseNext, ParseAll;
    assert SkipSpace(text + rest) == 0;
    MessagesStep(c, text + rest, strict);
    Split(text, rest);
  }

  // ---------- exactly which streams parse ----------

  /** Whitespace, and the bytes of one message behind it. */
  datatype Chunk = Chunk(space: string, text: string)

  function ChunksText(chunks: seq<Chunk>, tail: string): string {
    if chunks == [] then tail else chunks[0].space + (chunks[0].text + ChunksText(chunks[1..], tail))
  }

  /** Each chunk is a message in front of the rest of the stream, and only whitespace is left. */
  ghost predicate Cut(c: Suite, chunks: seq<Chunk>, tail: string, ms: seq<ParsedMessage>, strict: bool) {
    |chunks| == |ms| &&
    if chunks == [] then Blanks(tail)
    else
      && Blanks(chunks[0].space) && chunks[0].text != ""
      && ParseNext(c, chunks[0].text + ChunksText(chunks[1..], tail), strict) == Ok((ms[0], |chunks[0].text|))
      && Cut(c, chunks[1..], tail, ms[1..], strict)
  }

  lemma MessageStarts(c: Suite, stream: string, strict: bool)
    requires ParseNext(c, stream, strict).Ok?
    ensures stream != "" && SkipSpace(stream) == 0
  {
    hide FromRaw, ParseAttachments;
  }

  /** A stream that can be cut so is parsed so. */
  lemma {:induction false} CutParses(c: Suite, chunks: seq<Chunk>, tail: string, ms: seq<ParsedMessage>, strict: bool)
    requires Cut(c, chunks, tail, ms, strict)
    ensures ParseAll(c, ChunksText(chunks, tail), strict) == Ok(ms)
    decreases |chunks|
  {
    hide ParseAll, ParseNext;
    if chunks == [] {
      BlanksSkipped(c, tail, "", strict);
      assert tail + "" == tail;
      MessagesStep(c, "", strict);
    } else {
      var text, rest := chunks[0].text, ChunksText(chunks[1..], tail);
      CutParses(c, chunks[1..], tail, ms[1..], strict);
      BlanksSkipped(c, chunks[0].space, text + rest, strict);
      MessageStarts(c, text + rest, strict);
      MessagesStep(c, text + rest, strict);
      Split(text, rest);
      assert [ms[0]] + ms[1..] == ms;
    }
  }

  /** And a stream that is parsed can be cut so: nothing is skipped but whitespace, nothing is left over. */
  lemma {:induction false} ParsedIsCut(c: Suite, stream: string, strict: bool, ms: seq<ParsedMessage>)
    returns (chunks: seq<Chunk>, tail: string)
    requires ParseAll(c, stream, strict) == Ok(ms)
    ensures Cut(c, chunks, tail, ms, strict) && ChunksText(chunks, tail) == stream
    decreases |stream|
  {
    hide ParseNext;
    var n := SkipSpace(stream);
    SkippedBlanks(stream);
    var space, body := stream[..n], stream[n..];
    assert stream == space + body;
    if body == "" {
      chunks, tail := [], stream;
      assert space == stream;
    } else {
      var next := ParseNext(c, body, strict).value;
      var text, rest := body[..next.1], body[next.1..];
      assert body == text + rest;
      var more := ParseAll(c, rest, strict).value;
      assert ms == [next.0] + more && ms[1..] == more;
      var tailChunks;
      tailChunks, tail := ParsedIsCut(c, rest, strict, more);
      chunks := [Chunk(space, text)] + tailChunks;
      assert chunks[1..] == tailChunks;
    }
  }

  lemma {:induction false} SkippedBlanks(s: string)
    ensures Blanks(s[..SkipSpace(s)])
  {
    if s != "" && IsSpace(s[0]) {
      SkippedBlanks(s[1..]);
      assert s[..SkipSpace(s)] == [s[0]] + s[1..][..SkipSpace(s[1..])];
    }
  }

  // ---------- groups that are not understood ----------

  /** Groups that swallow nothing, and whatever is behind them. */
  lemma {:induction false} GroupsThen(c: Suite, gs: seq<Group>, table: Table, after: string, strict: bool)
    requires GoodGroups(c, gs, table) && (forall i :: 0 <= i < |gs| ==> !gs[i].TransSigGroup?) && Ascii(after)
    ensures GroupsText(gs, table).Ok?
    ensures var text := GroupsText(gs, table).value;
      ParseAttachments(c, text + after, table, strict) ==
        Join(AttachmentsOf(c, gs, table), |text|, ParseAttachments(c, after, table, strict))
  {
    hide GoodGroup, GroupText, ParseGroup, ParseAttachments, AttachmentOf, Ascii;
    if gs == [] {
      assert "" + after == after && AttachmentsOf(c, gs, table) == [];
      JoinNothing(ParseAttachments(c, after, table, strict));
    } else {
      var g, more := gs[0], gs[1..];
      assert g in gs;
      forall x | x in more ensures GoodGroup(c, x, table) { assert x in gs; }
      GroupsThen(c, more, table, after, strict);
      AsciiGroups(c, more, table);
      var rest := GroupsText(more, table).value;
      AsciiAppend(rest, after);
      GroupRead(c, g, table, rest + after, strict);
      var text := GroupText(g, table).value;
      Reassociate(text, rest, after);
      Split(text, rest + after);
      AttachmentsStep(c, text + (rest + after), table, strict);
      JoinJoin([AttachmentOf(c, g, table)], |text|, AttachmentsOf(c, more, table), |rest|,
               ParseAttachments(c, after, table, strict));
      assert AttachmentsOf(c, gs, table) == [AttachmentOf(c, g, table)] + AttachmentsOf(c, more, table);
    }
  }

  /**
   * Behind any groups, one whose counter the table does not interpret ends the message: in lenient
   * mode everything behind its counter is kept as it is, in strict mode the message is an error.
   */
  lemma GroupsThenUnknown(c: Suite, gs: seq<Group>, table: Table, code: string, count: nat, raw: string, strict: bool)
    requires GoodGroups(c, gs, table) && (forall i :: 0 <= i < |gs| ==> !gs[i].TransSigGroup?) && Ascii(raw)
    requires CounterText(code, count).Ok? && Classify(code, table) in {None, Some(TransReceiptQuadruples)}
    ensures GroupsText(gs, table).Ok?
    ensures var text := GroupsText(gs, table).value + (CounterText(code, count).value + raw);
      ParseAttachments(c, text, table, strict) ==
        if strict then Err(ParseError) else Ok((AttachmentsOf(c, gs, table) + [Unknown(code, count, raw)], |text|))
  {
    hide GoodGroups, GroupsText, ParseGroup, ParseAttachments, Classify;
    var counter := CounterText(code, count).value;
    var unknown := counter + raw;
    CounterRoundTrip(code, count, raw);
    AsciiAppend(counter, raw);
    hide Ascii, CounterText;
    UnknownGroup(c, table, code, count, counter, raw, strict);
    AttachmentsStep(c, unknown, table, strict);
    assert unknown[|unknown|..] == "";
    AttachmentsStep(c, "", table, strict);
    JoinEnd([Unknown(code, count, raw)], |unknown|);
    GroupsThen(c, gs, table, unknown, strict);
  }

  lemma AsciiGroups(c: Suite, gs: seq<Group>, table: Table)
    requires GoodGroups(c, gs, table)
    ensures GroupsText(gs, table).Ok? && Ascii(GroupsText(gs, table).value)
  {
    hide ParseAttachments, GoodGroups, GroupsText, Ascii;
    NothingIsAscii();
    GroupsRead(c, gs, table, "", true);
  }

  lemma UnknownGroup(c: Suite, table: Table, code: string, count: nat, counter: string, raw: string, strict: bool)
    requires ReadCounter(counter + raw) == Ok(Counter(code, count, |counter|)) && Ascii(counter + raw)
    requires Classify(code, table) in {None, Some(TransReceiptQuadruples)}
    ensures ParseGroup(c, counter + raw, table, strict) ==
      if strict then Err(ParseError) else Ok(([Unknown(code, count, raw)], |counter + raw|))
  {
    hide ReadCounter, Classify, Ascii;
    Split(counter, raw);
  }

  // ---------- the quadlet wrapper ----------

  /**
   * Wrapper transparency: attachment material that parses completely, wrapped in a quadlet counter
   * of its length, contributes exactly the same attachments to any ASCII stream.
   */
  lemma WrapperTransparent(c: Suite, g: string, k: nat, code: string, rest: string, table: Table, strict: bool)
    requires ParseAttachments(c, g, table, strict).Ok? && ParseAttachments(c, g, table, strict).value.1 == |g| == 4 * k
    requires Classify(code, table) == Some(AttachedMaterialQuadlets) && CounterText(code, k).Ok?
    requires Ascii(rest)
    ensures var atts := ParseAttachments(c, g, table, strict).value.0;
      var wrapped := CounterText(code, k).value + g;
      ParseAttachments(c, wrapped + rest, table, strict) ==
        Join(atts, |wrapped|, ParseAttachments(c, rest, table, strict))
  {
    var t := CounterText(code, k).value;
    var data := (t + g) + rest;
    FullyParsedIsAscii(c, g, table, strict);
    CounterRoundTrip(code, k, g + rest);
    Reassociate(t, g, rest);
    Split(t, g + rest);
    Split(g, rest);
    Split(t + g, rest);
    AsciiAppend(g, rest);
    AsciiAppend(t, g + rest);
    assert data[0] == '-';
    hide ParseAttachments, CounterText, ReadCounter, Classify, Ascii;
    assert ParseGroup(c, data, table, strict) == Ok((ParseAttachments(c, g, table, strict).value.0, |t + g|));
    AttachmentsStep(c, data, table, strict);
  }

  /** And a wrapper is only ever accepted around material that parses completely. */
  lemma WrapperOnlyWhole(c: Suite, g: string, k: nat, code: string, rest: string, table: Table, strict: bool)
    requires |g| == 4 * k && Classify(code, table) == Some(AttachedMaterialQuadlets) && CounterText(code, k).Ok?
    requires ParseAttachments(c, CounterText(code, k).value + g + rest, table, strict).Ok?
    ensures ParseAttachments(c, g, table, strict).Ok? && ParseAttachments(c, g, table, strict).value.1 == |g|
  {
    var t := CounterText(code, k).value;
    var data := (t + g) + rest;
    CounterRoundTrip(code, k, g + rest);
    Reassociate(t, g, rest);
    Split(t, g + rest);
    Split(g, rest);
    hide ParseAttachments, CounterText, ReadCounter, Classify, Ascii;
    AttachmentsStep(c, data, table, strict);
    assert ParseGroup(c, data, table, strict).Ok?;
  }

  lemma FullyParsedIsAscii(c: Suite, g: string, table: Table, strict: bool)
    requires ParseAttachments(c, g, table, strict).Ok? && ParseAttachments(c, g, table, strict).value.1 == |g|
    ensures Ascii(g)
  {
  }

  // ---------- built events can be sent ----------

  /** Every event built from an ASCII draft is a readable body. */
  lemma HeadedIsReadable(c: Suite, s: Serder)
    requires DecodeLaw(c) && WellFormed(c, s.sad, MAX_DEPTH)
    requires s.version.Some? && Headed(s.sad, s.version.value) && s.version.value.size == |s.raw|
    requires s.raw == JsonValues.Print(s.sad) && s.kind == JsonKind && Ascii(s.raw)
    ensures Readable(c, s)
  {
    ReadBack(c, s.sad, s.version.value, "");
    VersionFound(s.sad, s.version.value, "");
    HeadText(s.sad, s.version.value);
    assert s.raw + "" == s.raw;
    assert s.raw[0] == s.raw[..6][0] == '{';
  }
}
