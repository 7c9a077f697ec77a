/** Whole runs of direct mode: the in-memory states, the logs behind them, and the store. */
module DirectRuns {
  import opened Wrappers
  import opened Numerals
  import opened JsonValues
  import opened Primitives
  import opened Saids
  import opened KeyStates
  import opened Signatures
  import opened Kevers
  import opened Histories
  import opened Chains
  import opened Parsers
  import opened Stores
  import opened DirectMode

  /** A message, and whether the store's transaction for it goes through. */
  datatype Input = Input(m: ParsedMessage, commits: bool)

  function Run(c: Suite, ins: seq<Input>): Verifier {
    if ins == [] then EMPTY_VERIFIER
    else
      var i := ins[|ins| - 1];
      Process(c, Run(c, ins[..|ins| - 1]), i.m, i.commits).0
  }

  /** Does this input extend the log of `p`? */
  predicate Extends(c: Suite, v: Verifier, i: Input, p: string) {
    var a := Assess(c, v.kevers, i.m);
    i.commits && a.Ok? && a.value.1.Accept? && a.value.0.prefix == p
  }

  /** The messages accepted for `p`, in order. */
  function LogOf(c: Suite, ins: seq<Input>, p: string): seq<ParsedMessage> {
    if ins == [] then []
    else
      var init, i := ins[..|ins| - 1], ins[|ins| - 1];
      LogOf(c, init, p) + if Extends(c, Run(c, init), i, p) then [i.m] else []
  }

  function Entries(log: seq<ParsedMessage>): (es: seq<Entry>)
    ensures |es| == |log|
    ensures forall i :: 0 <= i < |log| ==> es[i] == EntryOf(log[i])
  {
    seq(|log|, i requires 0 <= i < |log| => EntryOf(log[i]))
  }

  lemma EntriesAppend(log: seq<ParsedMessage>, m: ParsedMessage)
    ensures Entries(log + [m]) == Entries(log) + [EntryOf(m)]
  {
  }

  lemma EntriesPrefix(log: seq<ParsedMessage>, n: nat)
    requires n <= |log|
    ensures Entries(log[..n]) == Entries(log)[..n]
  {
  }

  // ---------- the log behind each state ----------

  /** The last message of an accepted log came with a full quorum of receipts. */
  ghost predicate LastQuorate(c: Suite, log: seq<ParsedMessage>) {
    log != [] && Replay(c, Entries(log)).Ok? &&
    var st, m := Replay(c, Entries(log)).value, log[|log| - 1];
    VerifyReceipts(c, m.serder.raw, ReceiptsOf(m.attachments), st.backers, st.backerThreshold).Ok?
  }

  /** The state held for `p` is the replay of `p`'s log, each event of which had its quorum. */
  ghost predicate Tracks(c: Suite, v: Verifier, log: seq<ParsedMessage>, p: string) {
    && (p in v.kevers <==> log != [])
    && (log != [] ==> Replay(c, Entries(log)) == Ok(v.kevers[p]) && v.kevers[p].prefix == p)
    && (forall n :: 0 < n <= |log| ==> LastQuorate(c, log[..n]))
  }

  /** An accepted message is the start or the next step of its identifier's log. */
  lemma AcceptFacts(c: Suite, kevers: map<string, KeyState>, m: ParsedMessage)
    requires Assess(c, kevers, m).Ok? && Assess(c, kevers, m).value.1.Accept?
    ensures var p, st := Assess(c, kevers, m).value.0, Assess(c, kevers, m).value.1.st;
      && Header(m.serder.sad) == Ok(p)
      && (if p.prefix in kevers then Advance(c, kevers[p.prefix], EntryOf(m)) == Ok(st)
           else Start(c, EntryOf(m)) == Ok(st))
      && VerifyReceipts(c, m.serder.raw, ReceiptsOf(m.attachments), st.backers, st.backerThreshold).Ok?
  {
    hide Header, VerifyReceipts, Incept, NextState, Start, Advance, VerfersOf, HasUnknown;
    var p := Assess(c, kevers, m).value.0;
    var source: Delegations.AnchorSource := (d, s, t) => Ok(None);
    if p.prefix in kevers {
      AcceptedAdvances(c, kevers[p.prefix], EntryOf(m), Validation, Delegations.Proof(0, ""), source);
    } else {
      AcceptedStarts(c, EntryOf(m), VerfersOf(c, m.serder.sad).value, Delegations.Proof(0, ""), source);
    }
  }

  /** The header names the very event that was vouched for. */
  lemma HeaderFacts(c: Suite, e: Entry, p: ProcessResult, st: KeyState)
    requires Header(e.sad) == Ok(p) && Vouched(c, e, st)
    ensures p.prefix == st.prefix && p.sn == st.sn && p.said == st.lastDigest && st.sn < U64
  {
    hide EventSaid, VerifySaid, VerifySigs, GetStr;
  }

  lemma OneEntry(c: Suite, m: ParsedMessage)
    ensures Replay(c, Entries([m])) == Start(c, EntryOf(m))
  {
  }

  lemma MoreEntries(c: Suite, log: seq<ParsedMessage>, m: ParsedMessage, st: KeyState)
    requires log != [] && Replay(c, Entries(log)) == Ok(st)
    ensures Replay(c, Entries(log + [m])) == Advance(c, st, EntryOf(m))
  {
    EntriesAppend(log, m);
    assert (Entries(log) + [EntryOf(m)])[..|log|] == Entries(log);
  }

  /** One accepted message keeps the state of its identifier in step with the longer log. */
  lemma AcceptTracks(c: Suite, v: Verifier, log: seq<ParsedMessage>, m: ParsedMessage)
    requires Assess(c, v.kevers, m).Ok? && Assess(c, v.kevers, m).value.1.Accept?
    requires Tracks(c, v, log, Assess(c, v.kevers, m).value.0.prefix)
    ensures var p, st := Assess(c, v.kevers, m).value.0, Assess(c, v.kevers, m).value.1.st;
      && Replay(c, Entries(log + [m])) == Ok(st) && Vouched(c, EntryOf(m), st) && LastQuorate(c, log + [m])
      && p.prefix == st.prefix && p.sn == st.sn == |log| && p.said == st.lastDigest && st.sn < U64
  {
    var p, st := Assess(c, v.kevers, m).value.0, Assess(c, v.kevers, m).value.1.st;
    AcceptFacts(c, v.kevers, m);
    hide Assess, Vouched, Header, VerifyReceipts, Start, Advance, Replay;
    if log == [] {
      assert log + [m] == [m];
      OneEntry(c, m);
    } else {
      MoreEntries(c, log, m, v.kevers[p.prefix]);
    }
    var es := Entries(log + [m]);
    assert es[|es| - 1] == EntryOf(m);
    LastStep(c, es);
    LastKeysInForce(c, es);
    HeaderFacts(c, EntryOf(m), p, st);
  }

  lemma CommittedAccept(c: Suite, v: Verifier, i: Input, p: string)
    requires Extends(c, v, i, p)
    ensures var a := Assess(c, v.kevers, i.m).value;
      Process(c, v, i.m, i.commits).0 ==
        Verifier(v.kevers[p := a.1.st], EventStored(v.tables, a.0.said, i.m.serder.raw, p, a.0.sn, SigBytes(i.m)))
  {
    hide Assess, EventStored;
  }

  /** Every prefix of the longer log ended with its quorum. */
  lemma QuorateAppend(c: Suite, log: seq<ParsedMessage>, m: ParsedMessage)
    requires (forall n :: 0 < n <= |log| ==> LastQuorate(c, log[..n])) && LastQuorate(c, log + [m])
    ensures forall n :: 0 < n <= |log + [m]| ==> LastQuorate(c, (log + [m])[..n])
  {
    hide LastQuorate;
    var longer := log + [m];
    forall n | 0 < n <= |longer| ensures LastQuorate(c, longer[..n]) {
      assert n <= |log| ==> longer[..n] == log[..n];
      assert n > |log| ==> longer[..n] == longer;
    }
  }

  lemma TracksGrow(c: Suite, v: Verifier, i: Input, log: seq<ParsedMessage>, p: string)
    requires Tracks(c, v, log, p) && Extends(c, v, i, p)
    ensures Tracks(c, Process(c, v, i.m, i.commits).0, log + [i.m], p)
  {
    hide Assess, Process, Replay, LastQuorate, Vouched, EventStored, SigBytes;
    AcceptTracks(c, v, log, i.m);
    CommittedAccept(c, v, i, p);
    QuorateAppend(c, log, i.m);
  }

  lemma TracksIdle(c: Suite, v: Verifier, i: Input, log: seq<ParsedMessage>, p: string)
    requires Tracks(c, v, log, p) && !Extends(c, v, i, p)
    ensures Tracks(c, Process(c, v, i.m, i.commits).0, log, p)
  {
    hide Assess, Replay, LastQuorate;
  }

  /** In every run, the state held for an identifier is the replay of its accepted, quorate log. */
  lemma {:induction false} LogInvariant(c: Suite, ins: seq<Input>, p: string)
    ensures Tracks(c, Run(c, ins), LogOf(c, ins, p), p)
  {
    hide Process, Tracks, Extends;
    if ins == [] {
      NothingTracked(c, p);
    } else {
      var init, i := ins[..|ins| - 1], ins[|ins| - 1];
      LogInvariant(c, init, p);
      var log := LogOf(c, init, p);
      if Extends(c, Run(c, init), i, p) {
        TracksGrow(c, Run(c, init), i, log, p);
      } else {
        TracksIdle(c, Run(c, init), i, log, p);
        assert log + [] == log;
      }
    }
  }

  lemma NothingTracked(c: Suite, p: string)
    ensures Tracks(c, EMPTY_VERIFIER, [], p)
  {
  }

  // ---------- the log tables ----------

  function SaidOfMessage(m: ParsedMessage): string {
    match GetStr(m.serder.sad, "d")
    case Some(d) => d
    case None => ""
  }

  /** `key` indexes the `i`-th event of `p`'s log. */
  ghost predicate Indexes(c: Suite, ins: seq<Input>, key: string, p: string, i: nat) {
    i < |LogOf(c, ins, p)| && key == SnKey(p, i)
  }

  /** The log and first-seen tables hold the accepted logs and nothing else. */
  ghost predicate TablesMatch(c: Suite, ins: seq<Input>) {
    var t := Run(c, ins).tables;
    && t.fels == t.kels
    && (forall p, i: nat :: i < |LogOf(c, ins, p)| ==>
          SnKey(p, i) in t.kels && t.kels[SnKey(p, i)] == SaidOfMessage(LogOf(c, ins, p)[i]))
    && (forall key :: key in t.kels ==> exists p, i: nat :: Indexes(c, ins, key, p, i))
  }

  lemma LogLength(c: Suite, ins: seq<Input>, p: string)
    ensures |LogOf(c, ins, p)| <= U64
  {
    LogInvariant(c, ins, p);
    var log := LogOf(c, ins, p);
    if log != [] {
      LastStep(c, Entries(log));
      LastKeysInForce(c, Entries(log));
      hide Replay, VerifySigs, EventSaid, VerifySaid, GetStr, LogOf, Run;
    }
  }

  ghost predicate Idle(c: Suite, v: Verifier, i: Input) {
    forall p :: !Extends(c, v, i, p)
  }

  /** An input that extends no log leaves every log and the log tables alone. */
  lemma IdleStep(c: Suite, ins: seq<Input>)
    requires ins != [] && Idle(c, Run(c, ins[..|ins| - 1]), ins[|ins| - 1])
    ensures forall p :: LogOf(c, ins, p) == LogOf(c, ins[..|ins| - 1], p)
    ensures Run(c, ins).tables.kels == Run(c, ins[..|ins| - 1]).tables.kels
    ensures Run(c, ins).tables.fels == Run(c, ins[..|ins| - 1]).tables.fels
  {
    var init, i := ins[..|ins| - 1], ins[|ins| - 1];
    forall p ensures LogOf(c, ins, p) == LogOf(c, init, p) {
      assert !Extends(c, Run(c, init), i, p);
      assert LogOf(c, init, p) + [] == LogOf(c, init, p);
    }
    IdleTables(c, Run(c, init), i);
  }

  lemma IdleTables(c: Suite, v: Verifier, i: Input)
    requires Idle(c, v, i)
    ensures var v2 := Process(c, v, i.m, i.commits).0;
      v2.kevers == v.kevers && v2.tables.kels == v.tables.kels && v2.tables.fels == v.tables.fels
  {
    var a := Assess(c, v.kevers, i.m);
    hide Assess;
    assert a.Ok? ==> !Extends(c, v, i, a.value.0.prefix);
  }

  /** An input that extends the log of `q` adds exactly one entry to both log tables. */
  lemma GrowingStep(c: Suite, ins: seq<Input>, q: string)
    requires ins != [] && Extends(c, Run(c, ins[..|ins| - 1]), ins[|ins| - 1], q)
    ensures var init, m := ins[..|ins| - 1], ins[|ins| - 1].m;
      var t, t2, key := Run(c, init).tables, Run(c, ins).tables, SnKey(q, |LogOf(c, init, q)|);
      && LogOf(c, ins, q) == LogOf(c, init, q) + [m]
      && (forall p :: p != q ==> LogOf(c, ins, p) == LogOf(c, init, p))
      && t2.kels == t.kels[key := SaidOfMessage(m)] && t2.fels == t.fels[key := SaidOfMessage(m)]
      && t2.evts == t.evts[SaidOfMessage(m) := m.serder.raw]
      && |LogOf(c, init, q)| < U64
  {
    var init, i := ins[..|ins| - 1], ins[|ins| - 1];
    var v := Run(c, init);
    var a := Assess(c, v.kevers, i.m).value;
    LogInvariant(c, init, q);
    AcceptTracks(c, v, LogOf(c, init, q), i.m);
    SaidFact(c, i.m, a.1.st);
    hide Assess, Replay, Vouched, SnKey, Tracks, SaidOfMessage, LastQuorate;
    forall p | p != q ensures LogOf(c, ins, p) == LogOf(c, init, p) {
      assert !Extends(c, v, i, p);
      assert LogOf(c, init, p) + [] == LogOf(c, init, p);
    }
  }

  lemma SaidFact(c: Suite, m: ParsedMessage, st: KeyState)
    requires Vouched(c, EntryOf(m), st)
    ensures SaidOfMessage(m) == st.lastDigest
  {
    hide EventSaid, VerifySaid, VerifySigs, GetStr;
  }

  lemma {:induction false} TablesInvariant(c: Suite, ins: seq<Input>)
    ensures TablesMatch(c, ins)
  {
    if ins != [] {
      var init, i := ins[..|ins| - 1], ins[|ins| - 1];
      TablesInvariant(c, init);
      hide LogOf, Run, SnKey, Extends;
      if Idle(c, Run(c, init), i) {
        IdleStep(c, ins);
        forall key | key in Run(c, ins).tables.kels ensures exists p, k: nat :: Indexes(c, ins, key, p, k) {
          var p, k: nat :| Indexes(c, init, key, p, k);
          assert Indexes(c, ins, key, p, k);
        }
      } else {
        var q :| Extends(c, Run(c, init), i, q);
        GrownTables(c, ins, q);
      }
    }
  }

  lemma GrownTables(c: Suite, ins: seq<Input>, q: string)
    requires ins != [] && TablesMatch(c, ins[..|ins| - 1]) && Extends(c, Run(c, ins[..|ins| - 1]), ins[|ins| - 1], q)
    ensures TablesMatch(c, ins)
  {
    hide LogOf, Run, SnKey, Extends, Indexes, SaidOfMessage;
    GrowingStep(c, ins, q);
    var t2 := Run(c, ins).tables;
    forall p, i: nat | i < |LogOf(c, ins, p)|
      ensures SnKey(p, i) in t2.kels && t2.kels[SnKey(p, i)] == SaidOfMessage(LogOf(c, ins, p)[i])
    {
      StillStored(c, ins, q, p, i);
    }
    forall key | key in t2.kels
      ensures exists p, i: nat :: Indexes(c, ins, key, p, i)
    {
      StillIndexed(c, ins, q, key);
    }
  }

  lemma StillStored(c: Suite, ins: seq<Input>, q: string, p: string, i: nat)
    requires ins != [] && TablesMatch(c, ins[..|ins| - 1]) && Extends(c, Run(c, ins[..|ins| - 1]), ins[|ins| - 1], q)
    requires i < |LogOf(c, ins, p)|
    ensures SnKey(p, i) in Run(c, ins).tables.kels
    ensures Run(c, ins).tables.kels[SnKey(p, i)] == SaidOfMessage(LogOf(c, ins, p)[i])
  {
    hide LogOf, Run, SnKey, Extends, Indexes, SaidOfMessage;
    GrowingStep(c, ins, q);
    LogLength(c, ins, p);
    var init := ins[..|ins| - 1];
    var n := |LogOf(c, init, q)|;
    if SnKey(p, i) == SnKey(q, n) {
      SnKeyInjective(p, i, q, n);
    } else {
      assert i < |LogOf(c, init, p)|;
      assert SnKey(p, i) in Run(c, init).tables.kels;
    }
  }

  lemma StillIndexed(c: Suite, ins: seq<Input>, q: string, key: string)
    requires ins != [] && TablesMatch(c, ins[..|ins| - 1]) && Extends(c, Run(c, ins[..|ins| - 1]), ins[|ins| - 1], q)
    requires key in Run(c, ins).tables.kels
    ensures exists p, i: nat :: Indexes(c, ins, key, p, i)
  {
    hide LogOf, Run, SnKey, Extends;
    GrowingStep(c, ins, q);
    var init := ins[..|ins| - 1];
    var n := |LogOf(c, init, q)|;
    if key == SnKey(q, n) {
      assert Indexes(c, ins, key, q, n);
    } else {
      var p, i: nat :| Indexes(c, init, key, p, i);
      assert Indexes(c, ins, key, p, i);
    }
  }
}
