/** Whole runs of a judge: the first-seen policy, the bookkeeping of evidence, and no false accusation. */
module JudgeRuns {
  import opened Wrappers
  import opened Lists
  import opened Numerals
  import opened JsonValues
  import opened Primitives
  import opened Thresholds
  import opened Saids
  import opened KeyStates
  import opened Signatures
  import opened Kevers
  import opened Histories
  import opened Chains
  import opened Parsers
  import opened Stores
  import opened DirectMode
  import opened DirectRuns
  import opened Rebuilding
  import opened Agreement
  import opened Judges

  function JudgeRun(c: Suite, ins: seq<Input>): JudgeState {
    if ins == [] then FRESH_JUDGE
    else
      var i := ins[|ins| - 1];
      Judged(c, JudgeRun(c, ins[..|ins| - 1]), i.m, i.commits).0
  }

  /** The inputs the judge hands to the verifier. */
  function PassedOn(c: Suite, ins: seq<Input>): seq<Input> {
    if ins == [] then []
    else
      var init, i := ins[..|ins| - 1], ins[|ins| - 1];
      PassedOn(c, init) + if RouteOf(JudgeRun(c, init), i.m).PassOn? then [i] else []
  }

  lemma OnlyPassed(c: Suite, s: JudgeState, m: ParsedMessage, commits: bool)
    ensures Judged(c, s, m, commits).0.v == if RouteOf(s, m).PassOn? then Process(c, s.v, m, commits).0 else s.v
  {
    hide Process, RouteOf, Evident;
  }

  /** What the judge has verified is a direct-mode run of those inputs. */
  lemma {:induction false} JudgeIsVerifier(c: Suite, ins: seq<Input>)
    ensures JudgeRun(c, ins).v == Run(c, PassedOn(c, ins))
  {
    hide Process, RouteOf, Evident, Recorded;
    if ins != [] {
      var init, i := ins[..|ins| - 1], ins[|ins| - 1];
      JudgeIsVerifier(c, init);
      OnlyPassed(c, JudgeRun(c, init), i.m, i.commits);
      hide Judged;
      var passed := PassedOn(c, ins);
      if RouteOf(JudgeRun(c, init), i.m).PassOn? {
        assert passed[..|passed| - 1] == PassedOn(c, init);
      } else {
        assert passed == PassedOn(c, init);
      }
    }
  }

  // ---------- first seen stays first seen ----------

  /** Everything in the first-seen table is still there, unchanged. */
  ghost predicate Keeps(t: map<string, string>, u: map<string, string>) {
    forall k :: k in t ==> k in u && u[k] == t[k]
  }

  lemma FirstSeenStep(c: Suite, s: JudgeState, m: ParsedMessage, commits: bool)
    ensures Keeps(s.v.tables.fels, Judged(c, s, m, commits).0.v.tables.fels)
  {
    hide Assess, Evident, Header, SnKey;
    var a := Assess(c, s.v.kevers, m);
    if RouteOf(s, m).PassOn? && a.Ok? && a.value.1.Accept? {
      AssessedHeader(c, s.v.kevers, m);
    }
  }

  lemma AssessedHeader(c: Suite, kevers: map<string, KeyState>, m: ParsedMessage)
    requires Assess(c, kevers, m).Ok? && Assess(c, kevers, m).value.1.Accept?
    ensures Header(m.serder.sad) == Ok(Assess(c, kevers, m).value.0)
    ensures Assess(c, kevers, m).value.0.ilk != "rct"
  {
    hide Header, AssessInception, AssessUpdate, HasUnknown;
  }

  lemma FlagsStay(c: Suite, s: JudgeState, m: ParsedMessage, commits: bool)
    ensures s.duplicitous <= Judged(c, s, m, commits).0.duplicitous
  {
    hide Process, RouteOf, Evident;
  }

  /** A recorded first-seen SAID is never overwritten and a duplicitous prefix stays so, however the run goes on. */
  lemma {:induction false} FirstSeenForever(c: Suite, ins: seq<Input>, more: seq<Input>)
    ensures Keeps(JudgeRun(c, ins).v.tables.fels, JudgeRun(c, ins + more).v.tables.fels)
    ensures JudgeRun(c, ins).duplicitous <= JudgeRun(c, ins + more).duplicitous
    decreases |more|
  {
    hide Judged;
    if more == [] {
      assert ins + more == ins;
    } else {
      var all, init, i := ins + more, more[..|more| - 1], more[|more| - 1];
      assert all[..|all| - 1] == ins + init;
      FirstSeenForever(c, ins, init);
      FirstSeenStep(c, JudgeRun(c, ins + init), i.m, i.commits);
      FlagsStay(c, JudgeRun(c, ins + init), i.m, i.commits);
    }
  }

  /** A prefix once found duplicitous is refused: its messages, receipts apart, change nothing. */
  lemma DuplicitousIsDead(c: Suite, s: JudgeState, m: ParsedMessage, commits: bool)
    requires Header(m.serder.sad).Ok? && Header(m.serder.sad).value.prefix in s.duplicitous
    requires Header(m.serder.sad).value.ilk != "rct"
    ensures RouteOf(s, m) == Refuse(Validation) && Judged(c, s, m, commits) == (s, Err(Validation))
  {
    hide Header;
  }

  /** So its log never grows again, however the run goes on. */
  lemma {:induction false} FlaggedLogFrozen(c: Suite, ins: seq<Input>, more: seq<Input>, p: string)
    requires p in JudgeRun(c, ins).duplicitous
    ensures LogOf(c, PassedOn(c, ins + more), p) == LogOf(c, PassedOn(c, ins), p)
    decreases |more|
  {
    hide LogOf, PassedOn, JudgeRun;
    if more == [] {
      assert ins + more == ins;
    } else {
      var all, init, i := ins + more, more[..|more| - 1], more[|more| - 1];
      assert all[..|all| - 1] == ins + init && all[|all| - 1] == i;
      FlaggedLogFrozen(c, ins, init, p);
      FirstSeenForever(c, ins, init);
      FrozenStep(c, ins + init, i, p);
      assert ins + init + [i] == all;
    }
  }

  lemma FrozenStep(c: Suite, ins: seq<Input>, i: Input, p: string)
    requires p in JudgeRun(c, ins).duplicitous
    ensures LogOf(c, PassedOn(c, ins + [i]), p) == LogOf(c, PassedOn(c, ins), p)
  {
    hide JudgeRun, RouteOf, Assess, Run, Judged;
    var all, passed := ins + [i], PassedOn(c, ins);
    assert all[..|all| - 1] == ins;
    if RouteOf(JudgeRun(c, ins), i.m).PassOn? {
      JudgeIsVerifier(c, ins);
      if Extends(c, Run(c, passed), i, p) {
        AssessedHeader(c, Run(c, passed).kevers, i.m);
        DuplicitousIsDead(c, JudgeRun(c, ins), i.m, i.commits);
      }
      assert (passed + [i])[..|passed|] == passed;
      assert LogOf(c, passed, p) + [] == LogOf(c, passed, p);
    } else {
      assert PassedOn(c, all) == passed;
    }
  }

  // ---------- evidence ----------

  /** The evidence names two different SAIDs, the first of them the recorded one. */
  ghost predicate Supported(t: Tables, e: Evidence) {
    e.firstSaid != e.otherSaid && FirstSeen(t, e.prefix, e.sn) == Some(e.firstSaid)
  }

  ghost function Accused(del: seq<Evidence>): set<string> {
    set e | e in del :: e.prefix
  }

  ghost predicate Bookkept(s: JudgeState) {
    && (forall e :: e in s.del ==> Supported(s.v.tables, e))
    && (forall i, j :: 0 <= i < j < |s.del| ==> s.del[i].prefix != s.del[j].prefix)
    && (forall e :: e in s.del ==> e.prefix in s.duplicitous)
    && |s.del| == (if |s.duplicitous| < MAX_TOTAL then |s.duplicitous| else MAX_TOTAL)
  }

  lemma {:induction false} NoneFor(del: seq<Evidence>, prefix: string)
    requires forall e :: e in del ==> e.prefix != prefix
    ensures EvidenceFor(del, prefix) == []
  {
    if del != [] {
      var init := del[..|del| - 1];
      forall e | e in init ensures e.prefix != prefix { assert e in del; }
      NoneFor(init, prefix);
      assert del[|del| - 1] in del;
    }
  }

  lemma RecordBooks(s: JudgeState, e: Evidence)
    requires Bookkept(s) && Supported(s.v.tables, e) && e.prefix !in s.duplicitous
    ensures Bookkept(Recorded(s, e))
  {
    NoneFor(s.del, e.prefix);
    hide Supported;
    var s2 := Recorded(s, e);
    assert |s2.duplicitous| == |s.duplicitous| + 1;
    forall i, j | 0 <= i < j < |s2.del| ensures s2.del[i].prefix != s2.del[j].prefix {
      assert i < |s.del| && s2.del[i] == s.del[i] && s.del[i] in s.del;
    }
  }

  lemma ChallengeFacts(c: Suite, s: JudgeState, m: ParsedMessage, commits: bool)
    requires RouteOf(s, m).Challenge?
    ensures var p, existing := RouteOf(s, m).p, RouteOf(s, m).existing;
      && Header(m.serder.sad) == Ok(p) && p.prefix !in s.duplicitous
      && FirstSeen(s.v.tables, p.prefix, p.sn) == Some(existing) && existing != p.said
      && (Evident(c, s.v, p, m, existing).Ok? ==>
            var e := Evident(c, s.v, p, m, existing).value;
            e.prefix == p.prefix && e.sn == p.sn && e.firstSaid == existing && e.otherSaid == p.said)
  {
    hide Header, SnKey, TrialVerify;
  }

  lemma StepBooks(c: Suite, s: JudgeState, m: ParsedMessage, commits: bool)
    requires Bookkept(s)
    ensures Bookkept(Judged(c, s, m, commits).0)
  {
    FirstSeenStep(c, s, m, commits);
    match RouteOf(s, m) {
      case Challenge(p, existing) =>
        ChallengeFacts(c, s, m, commits);
        hide Header, SnKey, FirstSeen, RouteOf, Evident;
        if Evident(c, s.v, p, m, existing).Ok? {
          RecordBooks(s, Evident(c, s.v, p, m, existing).value);
        }
      case _ =>
        hide Header, Process, RouteOf, Evident;
        forall e | e in s.del ensures Supported(Judged(c, s, m, commits).0.v.tables, e) {
          assert Supported(s.v.tables, e);
        }
    }
  }

  /**
   * In every run: evidence is always two different SAIDs, the first of them the first-seen one;
   * one entry per prefix, each prefix flagged; and as many entries as flagged prefixes, up to 10000.
   */
  lemma {:induction false} EvidenceBooks(c: Suite, ins: seq<Input>)
    ensures Bookkept(JudgeRun(c, ins))
  {
    hide Judged;
    if ins != [] {
      var init, i := ins[..|ins| - 1], ins[|ins| - 1];
      EvidenceBooks(c, init);
      hide Bookkept;
      StepBooks(c, JudgeRun(c, init), i.m, i.commits);
    }
  }

  lemma {:induction false} AccusedSize(del: seq<Evidence>)
    requires forall i, j :: 0 <= i < j < |del| ==> del[i].prefix != del[j].prefix
    ensures |Accused(del)| == |del|
  {
    if del != [] {
      var init, last := del[..|del| - 1], del[|del| - 1];
      AccusedSize(init);
      AccusedLast(init, last);
      hide Accused;
      assert del == init + [last];
    }
  }

  lemma AccusedLast(del: seq<Evidence>, e: Evidence)
    ensures Accused(del + [e]) == Accused(del) + {e.prefix}
    ensures (forall i :: 0 <= i < |del| ==> del[i].prefix != e.prefix) ==> e.prefix !in Accused(del)
  {
    assert forall x :: x in del + [e] <==> x in del || x == e;
  }

  /**
   * The promise that every flagged prefix has its evidence holds exactly while no more than 10000
   * prefixes are flagged; the cap of 100 entries per prefix never comes into play.
   */
  lemma EveryFlagHasEvidence(c: Suite, ins: seq<Input>)
    ensures var s := JudgeRun(c, ins);
      && (Accused(s.del) == s.duplicitous <==> |s.duplicitous| <= MAX_TOTAL)
      && forall p :: |EvidenceFor(s.del, p)| <= 1
  {
    EvidenceBooks(c, ins);
    var s := JudgeRun(c, ins);
    hide Judged, JudgeRun, Supported;
    AccusedSize(s.del);
    assert Accused(s.del) <= s.duplicitous;
    if |s.duplicitous| <= MAX_TOTAL {
      SubsetEqual(Accused(s.del), s.duplicitous);
    }
    forall p ensures |EvidenceFor(s.del, p)| <= 1 {
      AtMostOne(s.del, p);
    }
  }

  lemma SubsetEqual<T>(a: set<T>, b: set<T>)
    requires a <= b && |a| == |b|
    ensures a == b
  {
    if b - a != {} {
      var x :| x in b - a;
      SubsetSize(a, b - {x});
    }
  }

  lemma {:induction false} AtMostOne(del: seq<Evidence>, p: string)
    requires forall i, j :: 0 <= i < j < |del| ==> del[i].prefix != del[j].prefix
    ensures |EvidenceFor(del, p)| <= 1
  {
    if del != [] {
      var init := del[..|del| - 1];
      if del[|del| - 1].prefix == p {
        forall e | e in init ensures e.prefix != p {
          var i :| 0 <= i < |init| && init[i] == e;
          assert del[i] == e;
        }
        NoneFor(init, p);
      } else {
        AtMostOne(init, p);
      }
    }
  }

  // ---------- no false accusation ----------

  /** `k` has been a key of `p` in some verified state. */
  ghost predicate AcceptedKey(c: Suite, log: seq<ParsedMessage>, k: string) {
    exists n :: 0 < n <= |log| && KeyAt(c, log, n, k)
  }

  ghost predicate KeyAt(c: Suite, log: seq<ParsedMessage>, n: nat, k: string)
    requires n <= |log|
  {
    Replay(c, Entries(log[..n])).Ok? && k in Replay(c, Entries(log[..n])).value.keys
  }

  ghost predicate Signs(c: Suite, k: string, m: ParsedMessage) {
    exists s :: s in ControllerSigsOf(m.attachments) && c.verify(k, m.serder.raw, s.raw) == Check.Valid
  }

  /** No two of these keys ever sign different events for one sequence number of `p`. */
  ghost predicate HonestKeys(c: Suite, ins: seq<Input>, log: seq<ParsedMessage>, p: string) {
    forall i, j, k, l ::
      (&& i in ins && j in ins && AcceptedKey(c, log, k) && AcceptedKey(c, log, l)
       && Signs(c, k, i.m) && Signs(c, l, j.m)) ==>
        !Conflict(i.m, j.m, p)
  }

  ghost predicate Honest(c: Suite, ins: seq<Input>, p: string) {
    HonestKeys(c, ins, LogOf(c, PassedOn(c, ins), p), p)
  }

  lemma SignerOf(c: Suite, m: ParsedMessage, keys: seq<string>, t: Threshold) returns (k: string)
    requires t.Valid() && VerifySigs(c, m.serder.raw, ControllerSigsOf(m.attachments), keys, t).Ok?
    ensures k in keys && Signs(c, k, m)
  {
    var s := AcceptedMeansSigned(c, m.serder.raw, ControllerSigsOf(m.attachments), keys, t);
    k := keys[s.index];
  }

  /** The first-seen entry is the log's own event at that sequence number, signed by an accepted key. */
  lemma FirstSeenEvent(c: Suite, ins: seq<Input>, p: string, sn: nat)
    requires sn < U64 && FirstSeen(Run(c, ins).tables, p, sn).Some?
    ensures sn < |LogOf(c, ins, p)|
    ensures FirstSeen(Run(c, ins).tables, p, sn) == Some(SaidOfMessage(LogOf(c, ins, p)[sn]))
  {
    TablesInvariant(c, ins);
    hide LogOf, Run, SnKey, SaidOfMessage;
    var key := SnKey(p, sn);
    assert key in Run(c, ins).tables.kels;
    var q, i: nat :| Indexes(c, ins, key, q, i);
    LogLength(c, ins, q);
    SnKeyInjective(p, sn, q, i);
  }

  lemma LogEventSigned(c: Suite, ins: seq<Input>, p: string, n: nat) returns (k: string)
    requires n < |LogOf(c, ins, p)|
    ensures AcceptedKey(c, LogOf(c, ins, p), k) && Signs(c, k, LogOf(c, ins, p)[n])
    ensures var sad := LogOf(c, ins, p)[n].serder.sad;
      GetStr(sad, "i") == Some(p) && SnOf(sad) == Some(n) &&
      GetStr(sad, "d") == Some(SaidOfMessage(LogOf(c, ins, p)[n]))
  {
    LogInvariant(c, ins, p);
    var log := LogOf(c, ins, p);
    var es := Entries(log);
    hide Run, LogOf, Replay, LastQuorate, EventSaid, VerifySaid, VerifySigs, GetStr, Signs;
    PrefixReplays(c, es, n + 1);
    EntriesPrefix(log, n + 1);
    var st := Replay(c, es[..n + 1]).value;
    LastStep(c, es[..n + 1]);
    LastKeysInForce(c, es[..n + 1]);
    SaidFact(c, log[n], st);
    k := SignerOf(c, log[n], st.keys, st.threshold);
    assert KeyAt(c, log, n + 1, k);
  }

  lemma CurrentKeySigned(c: Suite, ins: seq<Input>, p: string, m: ParsedMessage) returns (k: string)
    requires p in Run(c, ins).kevers
    requires var st := Run(c, ins).kevers[p];
      VerifySigs(c, m.serder.raw, ControllerSigsOf(m.attachments), st.keys, st.threshold).Ok?
    ensures AcceptedKey(c, LogOf(c, ins, p), k) && Signs(c, k, m)
  {
    hide Run, LogOf, Replay, LastQuorate, EventSaid, VerifySaid, VerifySigs, GetStr, Signs, Installs, Committed;
    LogInvariant(c, ins, p);
    var log, st := LogOf(c, ins, p), Run(c, ins).kevers[p];
    LastStep(c, Entries(log));
    k := SignerOf(c, m, st.keys, st.threshold);
    assert log[..|log|] == log;
    assert KeyAt(c, log, |log|, k);
  }

  /** A second valid inception of a self-addressing identifier would be the same event. */
  lemma NoSecondInception(c: Suite, ins: seq<Input>, p: ProcessResult, m: ParsedMessage, existing: string)
    requires c.digestCode(p.prefix).Some? && Header(m.serder.sad) == Ok(p) && (p.ilk == "icp" || p.ilk == "dip")
    requires FirstSeen(Run(c, ins).tables, p.prefix, p.sn) == Some(existing)
    requires TrialVerify(c, Run(c, ins).kevers, p, m).Ok?
    ensures existing == p.said
  {
    var e := WholeEntryOf(m);
    hide Run, LogOf, Incept, Start, Header, SnKey, VerfersOf;
    var verfers := VerfersOf(c, m.serder.sad).value;
    AcceptedStarts(c, e, verfers, Delegations.Proof(0, ""), (d, s, t) => Ok(None));
    StartFacts(c, e);
    BeginningHeader(c, e, p, Start(c, e).value);
    FirstSeenEvent(c, ins, p.prefix, 0);
    InceptionNamesItself(c, ins, p.prefix);
  }

  lemma BeginningHeader(c: Suite, e: Entry, p: ProcessResult, st: KeyState)
    requires Header(e.sad) == Ok(p) && Begins(c, e, st)
    ensures p.sn == 0 && p.prefix == st.prefix && p.said == st.lastDigest
    ensures c.digestCode(p.prefix).Some? ==> p.said == p.prefix
  {
    HeaderFacts(c, e, p, st);
    hide Header, Vouched, Installs;
  }

  lemma HeaderNames(m: ParsedMessage, p: ProcessResult)
    requires Header(m.serder.sad) == Ok(p)
    ensures GetStr(m.serder.sad, "i") == Some(p.prefix) && SnOf(m.serder.sad) == Some(p.sn)
    ensures GetStr(m.serder.sad, "d") == Some(p.said) && p.sn < U64
  {
    hide GetStr;
  }

  lemma InputsBehind(c: Suite, ins: seq<Input>, i: Input)
    requires i in PassedOn(c, ins)
    ensures i in ins
  {
    hide JudgeRun, RouteOf;
    if ins != [] {
      if i in PassedOn(c, ins[..|ins| - 1]) {
        InputsBehind(c, ins[..|ins| - 1], i);
      }
    }
  }

  /** A later event that passes the trial is signed by an accepted key, and so was the first-seen one. */
  lemma ChallengeNeedsTwoSignings(c: Suite, ins: seq<Input>, i: Input, p: ProcessResult, existing: string)
    requires var s := JudgeRun(c, ins);
      && Header(i.m.serder.sad) == Ok(p) && p.ilk != "icp" && p.ilk != "dip"
      && FirstSeen(s.v.tables, p.prefix, p.sn) == Some(existing) && existing != p.said
      && TrialVerify(c, s.v.kevers, p, i.m).Ok?
    ensures !HonestKeys(c, ins + [i], LogOf(c, PassedOn(c, ins), p.prefix), p.prefix)
  {
    hide Run, LogOf, PassedOn, JudgeRun, Header, SnKey, SaidOfMessage, VerifySigs, AcceptedKey, Signs;
    JudgeIsVerifier(c, ins);
    var passed := PassedOn(c, ins);
    HeaderNames(i.m, p);
    FirstSeenEvent(c, passed, p.prefix, p.sn);
    var k := CurrentKeySigned(c, passed, p.prefix, i.m);
    var l := LogEventSigned(c, passed, p.prefix, p.sn);
    var j := LogFromInputs(c, passed, p.prefix, p.sn);
    InputsBehind(c, ins, j);
    assert i in ins + [i] && j in ins + [i];
    assert Conflict(i.m, j.m, p.prefix);
  }

  lemma LogGrows(c: Suite, ins: seq<Input>, p: string)
    requires ins != []
    ensures LogOf(c, PassedOn(c, ins[..|ins| - 1]), p) <= LogOf(c, PassedOn(c, ins), p)
  {
    hide Run, Extends, JudgeRun, RouteOf;
    var init, passed := ins[..|ins| - 1], PassedOn(c, ins);
    if passed != PassedOn(c, init) {
      assert passed[..|passed| - 1] == PassedOn(c, init);
    }
  }

  lemma KeysStayAccepted(c: Suite, shorter: seq<ParsedMessage>, longer: seq<ParsedMessage>, k: string)
    requires shorter <= longer && AcceptedKey(c, shorter, k)
    ensures AcceptedKey(c, longer, k)
  {
    hide Replay;
    var n :| 0 < n <= |shorter| && KeyAt(c, shorter, n, k);
    assert longer[..n] == shorter[..n];
    assert KeyAt(c, longer, n, k);
  }

  lemma HonestBefore(c: Suite, some: seq<Input>, ins: seq<Input>, shorter: seq<ParsedMessage>,
                     longer: seq<ParsedMessage>, p: string)
    requires HonestKeys(c, ins, longer, p) && shorter <= longer && some <= ins
    ensures HonestKeys(c, some, shorter, p)
  {
    hide AcceptedKey, Signs, Conflict;
    forall i, j, k, l | i in some && j in some && AcceptedKey(c, shorter, k) && AcceptedKey(c, shorter, l) &&
      Signs(c, k, i.m) && Signs(c, l, j.m)
      ensures !Conflict(i.m, j.m, p)
    {
      KeysStayAccepted(c, shorter, longer, k);
      KeysStayAccepted(c, shorter, longer, l);
      assert i in ins && j in ins;
    }
  }

  // ---------- verdicts over runs ----------

  lemma FlagStep(c: Suite, s: JudgeState, m: ParsedMessage, commits: bool, p: string)
    requires p !in s.duplicitous && p in Judged(c, s, m, commits).0.duplicitous
    ensures RouteOf(s, m).Challenge? && RouteOf(s, m).p.prefix == p
  {
    hide Process, RouteOf, TrialVerify;
  }

  /** A prefix is only ever flagged once an event of it has been accepted. */
  lemma {:induction false} FlaggedHasLog(c: Suite, ins: seq<Input>, p: string)
    requires p in JudgeRun(c, ins).duplicitous
    ensures LogOf(c, PassedOn(c, ins), p) != []
  {
    hide Judged, LogOf, PassedOn, Run, RouteOf;
    if ins != [] {
      var init, i := ins[..|ins| - 1], ins[|ins| - 1];
      LogGrows(c, ins, p);
      if p in JudgeRun(c, init).duplicitous {
        FlaggedHasLog(c, init, p);
      } else {
        FlagStep(c, JudgeRun(c, init), i.m, i.commits, p);
        ChallengedHasLog(c, init, i);
      }
    }
  }

  lemma ChallengedHasLog(c: Suite, ins: seq<Input>, i: Input)
    requires RouteOf(JudgeRun(c, ins), i.m).Challenge?
    ensures LogOf(c, PassedOn(c, ins), RouteOf(JudgeRun(c, ins), i.m).p.prefix) != []
  {
    hide LogOf, PassedOn, Run, JudgeRun, RouteOf, Header, FirstSeen;
    var s := JudgeRun(c, ins);
    ChallengeFacts(c, s, i.m, i.commits);
    JudgeIsVerifier(c, ins);
    var p := RouteOf(s, i.m).p;
    HeaderNames(i.m, p);
    FirstSeenEvent(c, PassedOn(c, ins), p.prefix, p.sn);
  }

  /** What the three verdicts say of the messages judged so far. */
  lemma VerdictMeaning(c: Suite, ins: seq<Input>, p: string)
    ensures var verdict, log := VerdictOf(JudgeRun(c, ins), p), LogOf(c, PassedOn(c, ins), p);
      && (verdict == Unseen <==> log == [])
      && (verdict == Trusted <==> log != [] && p !in JudgeRun(c, ins).duplicitous)
      && (verdict == Trusted ==> Replay(c, Entries(log)) == Ok(JudgeRun(c, ins).v.kevers[p]))
  {
    hide LogOf, PassedOn, JudgeRun, Run, Replay, LastQuorate;
    JudgeIsVerifier(c, ins);
    LogInvariant(c, PassedOn(c, ins), p);
    if p in JudgeRun(c, ins).duplicitous {
      FlaggedHasLog(c, ins, p);
    }
  }

  lemma {:induction false} LogNeverShrinks(c: Suite, ins: seq<Input>, more: seq<Input>, p: string)
    ensures LogOf(c, PassedOn(c, ins), p) <= LogOf(c, PassedOn(c, ins + more), p)
    decreases |more|
  {
    hide LogOf, PassedOn;
    if more == [] {
      assert ins + more == ins;
    } else {
      var init := more[..|more| - 1];
      assert (ins + more)[..|ins + more| - 1] == ins + init;
      LogNeverShrinks(c, ins, init, p);
      LogGrows(c, ins + more, p);
    }
  }

  /** Verdicts only move from unseen to trusted to duplicitous, however the run goes on. */
  lemma VerdictsOnlyAdvance(c: Suite, ins: seq<Input>, more: seq<Input>, p: string)
    ensures var before, after := VerdictOf(JudgeRun(c, ins), p), VerdictOf(JudgeRun(c, ins + more), p);
      && (before == Duplicitous ==> after == Duplicitous)
      && (before == Trusted ==> after != Unseen)
  {
    FirstSeenForever(c, ins, more);
    LogNeverShrinks(c, ins, more, p);
    hide JudgeRun, LogOf, PassedOn;
    VerdictMeaning(c, ins, p);
    VerdictMeaning(c, ins + more, p);
  }

  // ---------- past the cap ----------

  /** Two validly signed, different inceptions of one prefix, the first acceptable on its own. */
  datatype Quarrel = Quarrel(prefix: string, first: ParsedMessage, second: ParsedMessage)

  predicate Quarrels(c: Suite, q: Quarrel) {
    && Header(q.first.serder.sad).Ok? && Header(q.second.serder.sad).Ok?
    && var p1, p2 := Header(q.first.serder.sad).value, Header(q.second.serder.sad).value;
    && p1.prefix == p2.prefix == q.prefix && p1.sn == p2.sn == 0 && p1.ilk == p2.ilk == "icp" && p1.said != p2.said
    && Assess(c, map[], q.first).Ok?
    && VerfersOf(c, q.second.serder.sad).Ok?
    && Incept(c, WholeEntryOf(q.second), VerfersOf(c, q.second.serder.sad).value).Ok?
  }

  function QuarrelInputs(qs: seq<Quarrel>): seq<Input> {
    if qs == [] then []
    else
      var q := qs[|qs| - 1];
      QuarrelInputs(qs[..|qs| - 1]) + [Input(q.first, true)] + [Input(q.second, true)]
  }

  /** The judge knows nothing of this prefix yet. */
  predicate Untouched(s: JudgeState, p: string) {
    p !in s.v.kevers && p !in s.duplicitous && SnKey(p, 0) !in s.v.tables.fels
  }

  lemma FirstOfQuarrel(c: Suite, s: JudgeState, q: Quarrel)
    requires Quarrels(c, q) && Untouched(s, q.prefix)
    ensures var s1, said := Judged(c, s, q.first, true).0, Header(q.first.serder.sad).value.said;
      && s1.duplicitous == s.duplicitous && s1.del == s.del
      && s1.v.kevers.Keys == s.v.kevers.Keys + {q.prefix}
      && s1.v.tables.fels == s.v.tables.fels[SnKey(q.prefix, 0) := said]
      && said in s1.v.tables.evts
  {
    hide Header, Incept, VerfersOf, SnKey, VerifyReceipts, HasUnknown;
    assert Assess(c, s.v.kevers, q.first) == Assess(c, map[], q.first);
  }

  lemma SecondOfQuarrel(c: Suite, s: JudgeState, q: Quarrel)
    requires Quarrels(c, q) && q.prefix !in s.duplicitous
    requires var said := Header(q.first.serder.sad).value.said;
      SnKey(q.prefix, 0) in s.v.tables.fels && s.v.tables.fels[SnKey(q.prefix, 0)] == said && said in s.v.tables.evts
    ensures var s1 := Judged(c, s, q.second, true).0;
      s1.v == s.v && s1.duplicitous == s.duplicitous + {q.prefix}
  {
    hide Header, Incept, VerfersOf, SnKey, Assess;
  }

  ghost function Quarrelling(qs: seq<Quarrel>): set<string> {
    set q | q in qs :: q.prefix
  }

  predicate AllQuarrel(c: Suite, qs: seq<Quarrel>) {
    && (forall q :: q in qs ==> Quarrels(c, q))
    && (forall i, j :: 0 <= i < j < |qs| ==> qs[i].prefix != qs[j].prefix)
  }

  /** Exactly these prefixes are known, and all of them are flagged. */
  ghost predicate AllFlagged(s: JudgeState, qs: seq<Quarrel>) {
    && s.v.kevers.Keys == s.duplicitous == Quarrelling(qs) && |s.duplicitous| == |qs|
    && forall k :: k in s.v.tables.fels ==> exists q :: q in qs && k == SnKey(q.prefix, 0)
  }

  lemma TwoMore(c: Suite, qs: seq<Quarrel>)
    requires qs != []
    ensures var q, s := qs[|qs| - 1], JudgeRun(c, QuarrelInputs(qs[..|qs| - 1]));
      JudgeRun(c, QuarrelInputs(qs)) == Judged(c, Judged(c, s, q.first, true).0, q.second, true).0
  {
    hide Judged;
    var before, q := QuarrelInputs(qs[..|qs| - 1]), qs[|qs| - 1];
    var one := before + [Input(q.first, true)];
    assert one[..|one| - 1] == before;
    assert (one + [Input(q.second, true)])[..|one|] == one;
  }

  /** Any family of quarrelling prefixes is a run that flags them all. */
  lemma {:induction false} QuarrelsAreFlagged(c: Suite, qs: seq<Quarrel>)
    requires AllQuarrel(c, qs)
    ensures AllFlagged(JudgeRun(c, QuarrelInputs(qs)), qs)
  {
    hide Judged, Quarrels, SnKey, AllQuarrel, Untouched;
    if qs == [] {
      NoneFlagged();
    } else {
      var init, q := qs[..|qs| - 1], qs[|qs| - 1];
      FewerQuarrel(c, qs);
      QuarrelsAreFlagged(c, init);
      TwoMore(c, qs);
      hide AllFlagged, QuarrelInputs;
      var s := JudgeRun(c, QuarrelInputs(init));
      NewPrefix(c, qs, s);
      QuarrelFlags(c, s, init, q);
      assert init + [q] == qs;
    }
  }

  lemma NoneFlagged()
    ensures AllFlagged(FRESH_JUDGE, [])
  {
    assert Quarrelling([]) == {};
  }

  lemma QuarrelFlags(c: Suite, s: JudgeState, qs: seq<Quarrel>, q: Quarrel)
    requires AllFlagged(s, qs) && Quarrels(c, q) && Untouched(s, q.prefix)
    ensures AllFlagged(Judged(c, Judged(c, s, q.first, true).0, q.second, true).0, qs + [q])
  {
    hide Judged, SnKey, AllFlagged, Assess, Incept, VerfersOf, Header;
    FirstOfQuarrel(c, s, q);
    var s1 := Judged(c, s, q.first, true).0;
    SecondOfQuarrel(c, s1, q);
    FlaggedMore(s, s1, Judged(c, s1, q.second, true).0, qs, q, Header(q.first.serder.sad).value.said);
  }

  lemma FewerQuarrel(c: Suite, qs: seq<Quarrel>)
    requires AllQuarrel(c, qs) && qs != []
    ensures AllQuarrel(c, qs[..|qs| - 1]) && Quarrels(c, qs[|qs| - 1])
  {
    hide Quarrels;
    var init := qs[..|qs| - 1];
    forall q | q in init ensures Quarrels(c, q) { assert q in qs; }
    assert qs[|qs| - 1] in qs;
  }

  lemma NewPrefix(c: Suite, qs: seq<Quarrel>, s: JudgeState)
    requires AllQuarrel(c, qs) && qs != [] && AllFlagged(s, qs[..|qs| - 1])
    ensures Untouched(s, qs[|qs| - 1].prefix) && Quarrels(c, qs[|qs| - 1])
  {
    hide Quarrels, SnKey;
    var init, q := qs[..|qs| - 1], qs[|qs| - 1];
    FewerQuarrel(c, qs);
    forall x | x in init ensures x.prefix != q.prefix {
      var i :| 0 <= i < |init| && init[i] == x;
      assert qs[i] == x;
    }
    if SnKey(q.prefix, 0) in s.v.tables.fels {
      var x :| x in init && SnKey(q.prefix, 0) == SnKey(x.prefix, 0);
      SnKeyInjective(q.prefix, 0, x.prefix, 0);
    }
  }

  lemma FlaggedMore(s: JudgeState, s1: JudgeState, s2: JudgeState, qs: seq<Quarrel>, q: Quarrel, said: string)
    requires AllFlagged(s, qs) && Untouched(s, q.prefix)
    requires s1.v.kevers.Keys == s.v.kevers.Keys + {q.prefix} && s1.duplicitous == s.duplicitous
    requires s1.v.tables.fels == s.v.tables.fels[SnKey(q.prefix, 0) := said]
    requires s2.v == s1.v && s2.duplicitous == s1.duplicitous + {q.prefix}
    ensures AllFlagged(s2, qs + [q])
  {
    hide SnKey;
    QuarrellingMore(qs, q);
    hide Quarrelling;
    forall k | k in s2.v.tables.fels ensures exists x :: x in qs + [q] && k == SnKey(x.prefix, 0) {
      if k != SnKey(q.prefix, 0) {
        var x :| x in qs && k == SnKey(x.prefix, 0);
        assert x in qs + [q];
      }
    }
  }

  lemma QuarrellingMore(qs: seq<Quarrel>, q: Quarrel)
    ensures Quarrelling(qs + [q]) == Quarrelling(qs) + {q.prefix}
    ensures forall x :: x in qs + [q] <==> x in qs || x == q
  {
    assert forall x :: x in qs + [q] <==> x in qs || x == q;
  }

  /** So a family of more than 10000 is a run in which flags and evidence part. */
  lemma PastTheCap(c: Suite, qs: seq<Quarrel>)
    requires AllQuarrel(c, qs) && |qs| > MAX_TOTAL
    ensures var s := JudgeRun(c, QuarrelInputs(qs));
      |s.duplicitous| == |qs| && |s.del| == MAX_TOTAL && Accused(s.del) != s.duplicitous
  {
    hide AllQuarrel, JudgeRun, Supported;
    QuarrelsAreFlagged(c, qs);
    EveryFlagHasEvidence(c, QuarrelInputs(qs));
    EvidenceBooks(c, QuarrelInputs(qs));
  }
}
