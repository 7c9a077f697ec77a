/** What a judge's evidence proves, and who is accused. */
module EvidenceRuns {
  import opened Wrappers
  import opened Numerals
  import opened JsonValues
  import opened Primitives
  import opened Events
  import opened KeyStates
  import opened Signatures
  import opened Kevers
  import opened Histories
  import opened Parsers
  import opened Stores
  import opened DirectMode
  import opened DirectRuns
  import opened Rebuilding
  import opened Agreement
  import opened Judges
  import opened JudgeRuns

  // ---------- what one challenge establishes ----------

  /** An inception under its first key, signed to its own threshold by its own keys. */
  ghost predicate OwnInception(c: Suite, p: ProcessResult, m: ParsedMessage) {
    && p.ilk == "icp" && p.sn == 0 && c.isKey(p.prefix) && c.digestCode(p.prefix).None?
    && var sad := m.serder.sad;
    && VerfersOf(c, sad).Ok? && VerfersOf(c, sad).value != [] && VerfersOf(c, sad).value[0] == p.prefix
    && InceptionOf(sad).Ok?
    && VerifySigs(c, m.serder.raw, ControllerSigsOf(m.attachments), VerfersOf(c, sad).value,
                  InceptionOf(sad).value.threshold).Ok?
  }

  ghost predicate SignedByAccepted(c: Suite, log: seq<ParsedMessage>, m: ParsedMessage) {
    exists k :: AcceptedKey(c, log, k) && Signs(c, k, m)
  }

  /**
   * Evidence `e`, found in message `m` after these inputs were passed on: the accepted event at its
   * number, signed by an accepted key and as the store then had it, against a message of another SAID
   * that is signed by an accepted key too, or else is an inception of its own under a key prefix.
   */
  ghost predicate Stands(c: Suite, passed: seq<Input>, m: ParsedMessage, e: Evidence) {
    var log := LogOf(c, passed, e.prefix);
    && e.sn < |log| && e.firstSaid == SaidOfMessage(log[e.sn]) && SignedByAccepted(c, log, log[e.sn])
    && (c.decode(e.firstEvent) == Some(log[e.sn].serder.sad) <==> !Clobbered(c, passed, e.prefix, e.sn))
    && e.otherEvent == m.serder.raw && e.otherSaid != e.firstSaid && Header(m.serder.sad).Ok?
    && var p := Header(m.serder.sad).value;
    && p.prefix == e.prefix && p.sn == e.sn && p.said == e.otherSaid
    && (OwnInception(c, p, m) || (p.ilk != "icp" && SignedByAccepted(c, log, m)))
  }

  /** Found at step `n` of the run. */
  ghost predicate FoundAt(c: Suite, ins: seq<Input>, n: nat, e: Evidence) {
    n < |ins| && Stands(c, PassedOn(c, ins[..n]), ins[n].m, e)
  }

  ghost predicate Substantiated(c: Suite, ins: seq<Input>, e: Evidence) {
    exists n: nat :: FoundAt(c, ins, n, e)
  }

  /** Fairness is about the messages there are, so the judge's selection of them is fair. */
  lemma FairPassed(c: Suite, ins: seq<Input>)
    requires Fair(c, ins)
    ensures Fair(c, PassedOn(c, ins))
  {
    hide DigestLaw, TextLaw, Chains.Separate, PassedOn;
    forall i | i in PassedOn(c, ins) ensures i in ins {
      InputsBehind(c, ins, i);
    }
  }

  lemma TrialOfInception(c: Suite, kevers: map<string, KeyState>, p: ProcessResult, m: ParsedMessage)
    requires Header(m.serder.sad) == Ok(p) && (p.ilk == "icp" || p.ilk == "dip") && TrialVerify(c, kevers, p, m).Ok?
    ensures p.ilk == "icp" && p.sn == 0
    ensures c.digestCode(p.prefix).Some? ==> p.said == p.prefix
    ensures c.digestCode(p.prefix).None? ==> OwnInception(c, p, m)
  {
    var e := WholeEntryOf(m);
    hide Start, Header, VerfersOf, VerifySigs, EventSaid, InceptionOf, FromInception;
    var verfers := VerfersOf(c, m.serder.sad).value;
    AcceptedStarts(c, e, verfers, Delegations.Proof(0, ""), (d, s, t) => Ok(None));
    StartFacts(c, e);
    BeginningHeader(c, e, p, Start(c, e).value);
    CheckedInceptionFacts(c, e, "icp", verfers);
    HeaderType(m.serder.sad, p);
    StatedPrefix(m.serder.sad, p);
  }

  lemma HeaderType(sad: Json, p: ProcessResult)
    requires Header(sad) == Ok(p)
    ensures GetStr(sad, "t") == Some(p.ilk)
  {
    hide GetStr;
  }

  lemma StatedPrefix(sad: Json, p: ProcessResult)
    requires Header(sad) == Ok(p) && InceptionOf(sad).Ok?
    ensures InceptionOf(sad).value.prefix == p.prefix
  {
    InceptionFields(sad);
    hide GetStr, InceptionOf;
  }

  /** A self-addressing prefix has no second inception to be challenged with. */
  lemma ChallengeSigned(c: Suite, ins: seq<Input>, p: ProcessResult, m: ParsedMessage, existing: string)
    requires Header(m.serder.sad) == Ok(p) && existing != p.said
    requires FirstSeen(Run(c, ins).tables, p.prefix, p.sn) == Some(existing)
    requires TrialVerify(c, Run(c, ins).kevers, p, m).Ok?
    ensures OwnInception(c, p, m) || (p.ilk != "icp" && SignedByAccepted(c, LogOf(c, ins, p.prefix), m))
  {
    hide Run, LogOf, Header, SnKey, VerifySigs, AcceptedKey, Signs, OwnInception, FirstSeen, VerfersOf, Incept;
    if p.ilk == "icp" || p.ilk == "dip" {
      TrialOfInception(c, Run(c, ins).kevers, p, m);
      if c.digestCode(p.prefix).Some? {
        NoSecondInception(c, ins, p, m, existing);
      }
    } else {
      var k := CurrentKeySigned(c, ins, p.prefix, m);
    }
  }

  lemma {:induction false} LogBodyKnown(c: Suite, ins: seq<Input>, p: string, k: nat)
    requires k < |LogOf(c, ins, p)|
    ensures KnownType(LogOf(c, ins, p)[k].serder.sad)
  {
    var init, i := ins[..|ins| - 1], ins[|ins| - 1];
    hide Run, KnownType, Extends;
    if k < |LogOf(c, init, p)| {
      LogBodyKnown(c, init, p, k);
    } else {
      ExtendingIsKnown(c, Run(c, init), i, p);
    }
  }

  lemma ExtendingIsKnown(c: Suite, v: Verifier, i: Input, p: string)
    requires Extends(c, v, i, p)
    ensures KnownType(i.m.serder.sad)
  {
    hide SnOf, HasUnknown, AssessInception, AssessUpdate;
  }

  /** Evidence found by challenging a message stands. */
  lemma ChallengeStands(c: Suite, passed: seq<Input>, m: ParsedMessage, p: ProcessResult, existing: string)
    requires Fair(c, passed) && Header(m.serder.sad) == Ok(p) && existing != p.said
    requires FirstSeen(Run(c, passed).tables, p.prefix, p.sn) == Some(existing)
    requires Evident(c, Run(c, passed), p, m, existing).Ok?
    ensures Stands(c, passed, m, Evident(c, Run(c, passed), p, m, existing).value)
  {
    hide Fair, Run, LogOf, Header, SnKey, FirstSeen, TrialVerify, AcceptedKey, Signs, SaidOfMessage, Clobbered,
         KnownType, OwnInception;
    HeaderNames(m, p);
    FirstSeenEvent(c, passed, p.prefix, p.sn);
    ChallengeSigned(c, passed, p, m, existing);
    var k := LogEventSigned(c, passed, p.prefix, p.sn);
    BodiesStored(c, passed, p.prefix, p.sn);
    LogBodyKnown(c, passed, p.prefix, p.sn);
  }

  /** Evidence appears only by a challenge. */
  lemma NewEvidence(c: Suite, s: JudgeState, m: ParsedMessage, commits: bool, e: Evidence)
    requires e in Judged(c, s, m, commits).0.del && e !in s.del
    ensures RouteOf(s, m).Challenge? && Evident(c, s.v, RouteOf(s, m).p, m, RouteOf(s, m).existing) == Ok(e)
  {
    hide Process, RouteOf, Evident;
  }

  /**
   * In every fair run, each piece of evidence was found in some message, and stands: the first
   * event is the accepted one, its stored body too unless overwritten before, and the other is
   * signed by a key accepted for the identifier or is an inception of its own under its first key.
   */
  lemma {:induction false} EvidenceStands(c: Suite, ins: seq<Input>)
    requires Fair(c, ins)
    ensures forall e :: e in JudgeRun(c, ins).del ==> Substantiated(c, ins, e)
  {
    hide Fair, Judged, Stands, PassedOn, RouteOf, Evident;
    if ins != [] {
      var init, i := ins[..|ins| - 1], ins[|ins| - 1];
      FairBefore(c, ins);
      EvidenceStands(c, init);
      forall e | e in JudgeRun(c, ins).del ensures Substantiated(c, ins, e) {
        if e in JudgeRun(c, init).del {
          StillSubstantiated(c, ins, e);
        } else {
          LastSubstantiates(c, ins, e);
        }
      }
    }
  }

  lemma StillSubstantiated(c: Suite, ins: seq<Input>, e: Evidence)
    requires ins != [] && Substantiated(c, ins[..|ins| - 1], e)
    ensures Substantiated(c, ins, e)
  {
    hide Stands, PassedOn;
    var init := ins[..|ins| - 1];
    var n: nat :| FoundAt(c, init, n, e);
    assert ins[..n] == init[..n];
    assert FoundAt(c, ins, n, e);
  }

  lemma LastSubstantiates(c: Suite, ins: seq<Input>, e: Evidence)
    requires Fair(c, ins) && ins != [] && e in JudgeRun(c, ins).del && e !in JudgeRun(c, ins[..|ins| - 1]).del
    ensures Substantiated(c, ins, e)
  {
    hide Fair, Judged, Stands, PassedOn, RouteOf, Evident, Run, Header, FirstSeen, Substantiated;
    var init, i := ins[..|ins| - 1], ins[|ins| - 1];
    var s := JudgeRun(c, init);
    NewEvidence(c, s, i.m, i.commits, e);
    hide JudgeRun;
    ChallengeFacts(c, s, i.m, i.commits);
    FairBefore(c, ins);
    FairPassed(c, init);
    JudgeIsVerifier(c, init);
    ChallengeStands(c, PassedOn(c, init), i.m, RouteOf(s, i.m).p, RouteOf(s, i.m).existing);
    assert FoundAt(c, ins, |init|, e);
    FoundSubstantiates(c, ins, |init|, e);
  }

  lemma FoundSubstantiates(c: Suite, ins: seq<Input>, n: nat, e: Evidence)
    requires FoundAt(c, ins, n, e)
    ensures Substantiated(c, ins, e)
  {
    hide FoundAt;
  }

  // ---------- who is accused ----------

  /** Signed to the threshold in force by the keys in force at the end of this log. */
  ghost predicate SignedInForce(c: Suite, log: seq<ParsedMessage>, m: ParsedMessage) {
    Replay(c, Entries(log)).Ok? &&
    var st := Replay(c, Entries(log)).value;
    && AsKeys(c, st.keys).Ok?
    && VerifySigs(c, m.serder.raw, ControllerSigsOf(m.attachments), st.keys, st.threshold).Ok?
  }

  /** An inception that `Kever::new` accepts. */
  ghost predicate StandsAlone(c: Suite, m: ParsedMessage) {
    VerfersOf(c, m.serder.sad).Ok? && Incept(c, WholeEntryOf(m), VerfersOf(c, m.serder.sad).value).Ok?
  }

  /**
   * Message `m` has another SAID than the event of `p` accepted at its number, and is an inception
   * that stands alone or a later event signed by the keys in force.
   */
  ghost predicate Challenger(c: Suite, passed: seq<Input>, m: ParsedMessage, p: string) {
    Header(m.serder.sad).Ok? &&
    var h, log := Header(m.serder.sad).value, LogOf(c, passed, p);
    && h.prefix == p && h.sn < |log| && h.said != SaidOfMessage(log[h.sn])
    && ((h.ilk == "icp" && StandsAlone(c, m))
        || ((h.ilk == "rot" || h.ilk == "ixn" || h.ilk == "drt") && SignedInForce(c, log, m)))
  }

  ghost predicate ChallengerAt(c: Suite, ins: seq<Input>, n: nat, p: string) {
    n < |ins| && Challenger(c, PassedOn(c, ins[..n]), ins[n].m, p)
  }

  ghost predicate Challenged(c: Suite, ins: seq<Input>, p: string) {
    exists n: nat :: ChallengerAt(c, ins, n, p)
  }

  lemma LaterChallenged(c: Suite, ins: seq<Input>, p: string)
    requires ins != []
    ensures Challenged(c, ins, p) <==>
      Challenged(c, ins[..|ins| - 1], p) || Challenger(c, PassedOn(c, ins[..|ins| - 1]), ins[|ins| - 1].m, p)
  {
    hide Challenger, PassedOn;
    var init := ins[..|ins| - 1];
    if n: nat :| ChallengerAt(c, init, n, p) {
      assert ins[..n] == init[..n];
      assert ChallengerAt(c, ins, n, p);
    }
    if n: nat :| ChallengerAt(c, ins, n, p) {
      if n < |init| {
        assert ins[..n] == init[..n];
        assert ChallengerAt(c, init, n, p);
      }
    }
    if Challenger(c, PassedOn(c, init), ins[|ins| - 1].m, p) {
      assert ChallengerAt(c, ins, |init|, p);
    }
  }

  /** The body of every accepted event, or what has replaced it, is in the store. */
  lemma {:induction false} BodyThere(c: Suite, ins: seq<Input>, p: string, k: nat)
    requires k < |LogOf(c, ins, p)|
    ensures SaidOfMessage(LogOf(c, ins, p)[k]) in Run(c, ins).tables.evts
  {
    hide Extends, SaidOfMessage, Process, Run, LogOf;
    LastRun(c, ins, p);
    var init, i := ins[..|ins| - 1], ins[|ins| - 1];
    EventsStay(c, Run(c, init), i);
    if k < |LogOf(c, init, p)| {
      BodyThere(c, init, p, k);
    } else {
      GrowingStep(c, ins, p);
    }
  }

  lemma LastRun(c: Suite, ins: seq<Input>, p: string)
    requires LogOf(c, ins, p) != []
    ensures ins != []
    ensures var init, i := ins[..|ins| - 1], ins[|ins| - 1];
      && Run(c, ins) == Process(c, Run(c, init), i.m, i.commits).0
      && LogOf(c, ins, p) == LogOf(c, init, p) + if Extends(c, Run(c, init), i, p) then [i.m] else []
  {
  }

  lemma EventsStay(c: Suite, v: Verifier, i: Input)
    ensures v.tables.evts.Keys <= Process(c, v, i.m, i.commits).0.tables.evts.Keys
  {
    hide Assess, Commit;
    var a := Assess(c, v.kevers, i.m);
    if a.Ok? {
      CommitKeeps(v, i.m, a.value.0, a.value.1);
    }
  }

  lemma CommitKeeps(v: Verifier, m: ParsedMessage, p: ProcessResult, effect: Effect)
    ensures v.tables.evts.Keys <= Commit(v, m, p, effect).tables.evts.Keys
  {
    hide SnKey, SigBytes, CoupleTexts;
  }

  /** A challenger that is judged gets its prefix flagged. */
  lemma ChallengerFlags(c: Suite, ins: seq<Input>, i: Input, p: string)
    requires Challenger(c, PassedOn(c, ins), i.m, p)
    ensures p in Judged(c, JudgeRun(c, ins), i.m, i.commits).0.duplicitous
  {
    hide JudgeRun, PassedOn, Run, LogOf, Header, SnKey, SaidOfMessage, FirstSeen, StandsAlone, Replay, LastQuorate;
    var s, passed, h := JudgeRun(c, ins), PassedOn(c, ins), Header(i.m.serder.sad).value;
    JudgeIsVerifier(c, ins);
    LogInvariant(c, passed, p);
    LogSeenFirst(c, passed, p, h.sn);
    BodyThere(c, passed, p, h.sn);
    ChallengerPasses(c, s.v.kevers, h, i.m, LogOf(c, passed, p));
    if p !in s.duplicitous {
      PassedFlags(c, s, i.m, h, SaidOfMessage(LogOf(c, passed, p)[h.sn]), i.commits);
    } else {
      FlagsStay(c, s, i.m, i.commits);
    }
  }

  lemma ChallengerPasses(c: Suite, kevers: map<string, KeyState>, h: ProcessResult, m: ParsedMessage,
                         log: seq<ParsedMessage>)
    requires h.prefix in kevers && Replay(c, Entries(log)) == Ok(kevers[h.prefix])
    requires (h.ilk == "icp" && StandsAlone(c, m))
      || ((h.ilk == "rot" || h.ilk == "ixn" || h.ilk == "drt") && SignedInForce(c, log, m))
    ensures TrialVerify(c, kevers, h, m).Ok?
  {
    hide Replay, Incept, VerfersOf, VerifySigs;
  }

  lemma PassedFlags(c: Suite, s: JudgeState, m: ParsedMessage, h: ProcessResult, existing: string, commits: bool)
    requires Header(m.serder.sad) == Ok(h) && h.ilk != "rct" && h.prefix !in s.duplicitous
    requires FirstSeen(s.v.tables, h.prefix, h.sn) == Some(existing) && existing != h.said
    requires existing in s.v.tables.evts && TrialVerify(c, s.v.kevers, h, m).Ok?
    ensures h.prefix in Judged(c, s, m, commits).0.duplicitous
  {
    hide Header, SnKey, TrialVerify, FirstSeen, Process;
  }

  /** The first-seen table knows every accepted event. */
  lemma LogSeenFirst(c: Suite, ins: seq<Input>, p: string, k: nat)
    requires k < |LogOf(c, ins, p)|
    ensures FirstSeen(Run(c, ins).tables, p, k) == Some(SaidOfMessage(LogOf(c, ins, p)[k]))
  {
    TablesInvariant(c, ins);
    hide LogOf, Run, SnKey, SaidOfMessage;
  }

  /** The first flag is raised by a challenger. */
  lemma FlaggedByChallenger(c: Suite, ins: seq<Input>, i: Input, p: string)
    requires p !in JudgeRun(c, ins).duplicitous && p in Judged(c, JudgeRun(c, ins), i.m, i.commits).0.duplicitous
    ensures Challenger(c, PassedOn(c, ins), i.m, p)
  {
    hide JudgeRun, PassedOn, Run, LogOf, Header, SnKey, FirstSeen, RouteOf, Judged, SaidOfMessage, StandsAlone, Replay,
         LastQuorate, TrialVerify;
    var s := JudgeRun(c, ins);
    FlagStep(c, s, i.m, i.commits, p);
    FlagNeedsTrial(c, s, i.m, i.commits, p);
    ChallengeFacts(c, s, i.m, i.commits);
    JudgeIsVerifier(c, ins);
    var h := RouteOf(s, i.m).p;
    HeaderNames(i.m, h);
    FirstSeenEvent(c, PassedOn(c, ins), p, h.sn);
    LogInvariant(c, PassedOn(c, ins), p);
    PassesAsChallenger(c, s.v.kevers, h, i.m, LogOf(c, PassedOn(c, ins), p));
  }

  lemma PassesAsChallenger(c: Suite, kevers: map<string, KeyState>, h: ProcessResult, m: ParsedMessage,
                           log: seq<ParsedMessage>)
    requires Header(m.serder.sad) == Ok(h) && TrialVerify(c, kevers, h, m).Ok?
    requires h.prefix in kevers && Replay(c, Entries(log)) == Ok(kevers[h.prefix])
    ensures (h.ilk == "icp" && StandsAlone(c, m))
      || ((h.ilk == "rot" || h.ilk == "ixn" || h.ilk == "drt") && SignedInForce(c, log, m))
  {
    hide Replay, Incept, VerfersOf, VerifySigs, Header, OwnInception;
    if h.ilk == "icp" || h.ilk == "dip" {
      TrialOfInception(c, kevers, h, m);
    }
  }

  lemma FlagNeedsTrial(c: Suite, s: JudgeState, m: ParsedMessage, commits: bool, p: string)
    requires p !in s.duplicitous && p in Judged(c, s, m, commits).0.duplicitous
    ensures RouteOf(s, m).Challenge? && TrialVerify(c, s.v.kevers, RouteOf(s, m).p, m).Ok?
  {
    hide Process, RouteOf, TrialVerify;
  }

  /**
   * Who is accused: in every run, an identifier is flagged exactly when some judged message came
   * after its log had reached the message's number, has another SAID than the event there, and is an
   * inception that stands alone or a rotation or interaction signed by the keys in force.
   */
  lemma {:induction false} FlaggedExactly(c: Suite, ins: seq<Input>, p: string)
    ensures p in JudgeRun(c, ins).duplicitous <==> Challenged(c, ins, p)
  {
    hide Judged, LogOf, PassedOn, Challenged, Challenger;
    if ins == [] {
      NeverChallenged(c, p);
    } else {
      var init, i := ins[..|ins| - 1], ins[|ins| - 1];
      FlaggedExactly(c, init, p);
      LaterChallenged(c, ins, p);
      FlagsStay(c, JudgeRun(c, init), i.m, i.commits);
      if Challenger(c, PassedOn(c, init), i.m, p) {
        ChallengerFlags(c, init, i, p);
      } else if p in JudgeRun(c, ins).duplicitous && p !in JudgeRun(c, init).duplicitous {
        FlaggedByChallenger(c, init, i, p);
      }
    }
  }

  lemma NeverChallenged(c: Suite, p: string)
    ensures !Challenged(c, [], p)
  {
  }

  // ---------- what a judge answers ----------

  /** Whether the judge has flagged the prefix, and what it has seen first there. */
  lemma RouteSeen(s: JudgeState, m: ParsedMessage, h: ProcessResult)
    requires Header(m.serder.sad) == Ok(h)
    ensures RouteOf(s, m) ==
      if h.ilk == "rct" then PassOn
      else if h.prefix in s.duplicitous then Refuse(Validation)
      else match FirstSeen(s.v.tables, h.prefix, h.sn)
           case None => PassOn
           case Some(existing) => if existing == h.said then Repeat else Challenge(h, existing)
  {
    hide Header, SnKey, FirstSeen;
  }

  /** The first-seen table goes as far as the log. */
  lemma SeenAsFarAsLog(c: Suite, ins: seq<Input>, p: string, sn: nat)
    requires sn < U64
    ensures FirstSeen(Run(c, ins).tables, p, sn) ==
      if sn < |LogOf(c, ins, p)| then Some(SaidOfMessage(LogOf(c, ins, p)[sn])) else None
  {
    hide LogOf, Run, FirstSeen, SaidOfMessage;
    if sn < |LogOf(c, ins, p)| {
      LogSeenFirst(c, ins, p, sn);
    } else if FirstSeen(Run(c, ins).tables, p, sn).Some? {
      FirstSeenEvent(c, ins, p, sn);
    }
  }

  /** The evidence that a challenger leaves. */
  ghost function EvidenceOf(v: Verifier, h: ProcessResult, m: ParsedMessage, existing: string): Evidence
    requires existing in v.tables.evts
  {
    Evidence(h.prefix, h.sn, existing, h.said, v.tables.evts[existing], m.serder.raw)
  }

  lemma ChallengeAnswered(c: Suite, s: JudgeState, m: ParsedMessage, commits: bool, h: ProcessResult, existing: string)
    requires RouteOf(s, m) == Challenge(h, existing) && existing in s.v.tables.evts
    requires (forall e :: e in s.del ==> e.prefix in s.duplicitous) && h.prefix !in s.duplicitous
    ensures var e := EvidenceOf(s.v, h, m, existing);
      if TrialVerify(c, s.v.kevers, h, m).Ok?
      then Judged(c, s, m, commits) ==
             (JudgeState(s.v, s.duplicitous + {h.prefix}, if |s.del| < 10000 then s.del + [e] else s.del),
              Ok(DuplicityDetected(e)))
      else Judged(c, s, m, commits).0 == s && Judged(c, s, m, commits).1.Err?
  {
    hide Process, RouteOf, TrialVerify;
    NoneFor(s.del, h.prefix);
  }

  lemma TrialExactly(c: Suite, ins: seq<Input>, h: ProcessResult, m: ParsedMessage)
    requires Header(m.serder.sad) == Ok(h)
    requires h.sn < |LogOf(c, PassedOn(c, ins), h.prefix)|
    requires h.said != SaidOfMessage(LogOf(c, PassedOn(c, ins), h.prefix)[h.sn])
    ensures TrialVerify(c, JudgeRun(c, ins).v.kevers, h, m).Ok? <==> Challenger(c, PassedOn(c, ins), m, h.prefix)
  {
    hide JudgeRun, PassedOn, Run, LogOf, Header, SaidOfMessage, StandsAlone, Replay, LastQuorate, TrialVerify,
         SignedInForce;
    var log := LogOf(c, PassedOn(c, ins), h.prefix);
    JudgeIsVerifier(c, ins);
    LogInvariant(c, PassedOn(c, ins), h.prefix);
    if TrialVerify(c, JudgeRun(c, ins).v.kevers, h, m).Ok? {
      PassesAsChallenger(c, JudgeRun(c, ins).v.kevers, h, m, log);
    }
    if Challenger(c, PassedOn(c, ins), m, h.prefix) {
      ChallengerPasses(c, JudgeRun(c, ins).v.kevers, h, m, log);
    }
  }

  /**
   * What a judge answers, in every run: receipts and new events of unchallenged identifiers go to the
   * verifier, everything else of a challenged one is refused, a repeated event is acknowledged, and a
   * different one is evidence if it is a challenger and an error if not.
   */
  lemma JudgedExactly(c: Suite, ins: seq<Input>, m: ParsedMessage, commits: bool, h: ProcessResult)
    requires Header(m.serder.sad) == Ok(h)
    ensures var s, log := JudgeRun(c, ins), LogOf(c, PassedOn(c, ins), h.prefix);
      var (s2, r) := Judged(c, s, m, commits);
      if h.ilk == "rct" || (!Challenged(c, ins, h.prefix) && h.sn >= |log|) then
        var (v, x) := Process(c, s.v, m, commits);
        s2 == s.(v := v) && r == (match x case Ok(p) => Ok(Accepted(p)) case Err(error) => Err(error))
      else if Challenged(c, ins, h.prefix) then s2 == s && r == Err(Validation)
      else if h.said == SaidOfMessage(log[h.sn]) then s2 == s && r == Ok(DuplicateAccepted)
      else if Challenger(c, PassedOn(c, ins), m, h.prefix) then
        && SaidOfMessage(log[h.sn]) in s.v.tables.evts
        && var e := EvidenceOf(s.v, h, m, SaidOfMessage(log[h.sn]));
           && r == Ok(DuplicityDetected(e)) && s2.v == s.v && s2.duplicitous == s.duplicitous + {h.prefix}
           && s2.del == if |s.del| < 10000 then s.del + [e] else s.del
      else s2 == s && r.Err?
  {
    hide JudgeRun, PassedOn, LogOf, Header, SaidOfMessage, Process, Challenger, Challenged, Run, TrialVerify,
         RouteOf, Evident, FirstSeen;
    var s, passed := JudgeRun(c, ins), PassedOn(c, ins);
    var log := LogOf(c, passed, h.prefix);
    FlaggedExactly(c, ins, h.prefix);
    JudgeIsVerifier(c, ins);
    HeaderNames(m, h);
    SeenAsFarAsLog(c, passed, h.prefix, h.sn);
    RouteSeen(s, m, h);
    if h.sn < |log| && h.ilk != "rct" && h.prefix !in s.duplicitous && h.said != SaidOfMessage(log[h.sn]) {
      BodyThere(c, passed, h.prefix, h.sn);
      EvidenceBooks(c, ins);
      ChallengeAnswered(c, s, m, commits, h, SaidOfMessage(log[h.sn]));
      TrialExactly(c, ins, h, m);
    }
  }

  // ---------- honest identifiers ----------

  /** Message `m` is another valid inception of `p`, judged after these inputs have begun its log. */
  ghost predicate Rival(c: Suite, passed: seq<Input>, m: ParsedMessage, p: string) {
    var log := LogOf(c, passed, p);
    && log != [] && Header(m.serder.sad).Ok?
    && var h := Header(m.serder.sad).value;
    && h.prefix == p && h.ilk == "icp" && h.said != SaidOfMessage(log[0]) && StandsAlone(c, m)
  }

  ghost predicate RivalAt(c: Suite, ins: seq<Input>, n: nat, p: string) {
    n < |ins| && Rival(c, PassedOn(c, ins[..n]), ins[n].m, p)
  }

  ghost predicate Rivalled(c: Suite, ins: seq<Input>, p: string) {
    exists n: nat :: RivalAt(c, ins, n, p)
  }

  /** An inception that stands alone is of number 0, so a rival is a challenger. */
  lemma RivalChallenges(c: Suite, passed: seq<Input>, m: ParsedMessage, p: string)
    requires Rival(c, passed, m, p)
    ensures Challenger(c, passed, m, p)
  {
    hide Run, LogOf, Header, SaidOfMessage, StandsAlone;
    InceptionIsFirst(c, m, Header(m.serder.sad).value);
  }

  /** Under honest keys only a rival can challenge. */
  lemma HonestChallenger(c: Suite, ins: seq<Input>, i: Input, p: string)
    requires Challenger(c, PassedOn(c, ins), i.m, p)
    requires HonestKeys(c, ins + [i], LogOf(c, PassedOn(c, ins), p), p)
    ensures Rival(c, PassedOn(c, ins), i.m, p)
  {
    hide JudgeRun, PassedOn, Run, LogOf, Header, SnKey, HonestKeys, FirstSeen, StandsAlone, SaidOfMessage, Replay,
         LastQuorate;
    var passed, h := PassedOn(c, ins), Header(i.m.serder.sad).value;
    if h.ilk == "icp" {
      InceptionIsFirst(c, i.m, h);
    } else {
      JudgeIsVerifier(c, ins);
      LogInvariant(c, passed, p);
      LogSeenFirst(c, passed, p, h.sn);
      ChallengerPasses(c, JudgeRun(c, ins).v.kevers, h, i.m, LogOf(c, passed, p));
      ChallengeNeedsTwoSignings(c, ins, i, h, SaidOfMessage(LogOf(c, passed, p)[h.sn]));
    }
  }

  lemma InceptionIsFirst(c: Suite, m: ParsedMessage, h: ProcessResult)
    requires Header(m.serder.sad) == Ok(h) && StandsAlone(c, m)
    ensures h.sn == 0
  {
    hide Header, VerfersOf, Incept, Start;
    var e := WholeEntryOf(m);
    AcceptedStarts(c, e, VerfersOf(c, m.serder.sad).value, Delegations.Proof(0, ""), (d, s, t) => Ok(None));
    StartFacts(c, e);
    BeginningHeader(c, e, h, Start(c, e).value);
  }

  /**
   * An identifier whose accepted keys together sign at most one SAID per sequence number is flagged
   * exactly when another inception of it that passes on its own has been judged.
   */
  lemma HonestFlaggedExactly(c: Suite, ins: seq<Input>, p: string)
    requires Honest(c, ins, p)
    ensures p in JudgeRun(c, ins).duplicitous <==> Rivalled(c, ins, p)
  {
    hide Honest, JudgeRun, Challenger, Rival, PassedOn;
    FlaggedExactly(c, ins, p);
    if n: nat :| ChallengerAt(c, ins, n, p) {
      HonestUntil(c, ins, n, p);
      HonestChallenger(c, ins[..n], ins[n], p);
      assert RivalAt(c, ins, n, p);
    }
    if n: nat :| RivalAt(c, ins, n, p) {
      RivalChallenges(c, PassedOn(c, ins[..n]), ins[n].m, p);
      assert ChallengerAt(c, ins, n, p);
    }
  }

  lemma HonestUntil(c: Suite, ins: seq<Input>, n: nat, p: string)
    requires Honest(c, ins, p) && n < |ins|
    ensures HonestKeys(c, ins[..n] + [ins[n]], LogOf(c, PassedOn(c, ins[..n]), p), p)
  {
    hide HonestKeys, LogOf, PassedOn;
    assert ins[..n] + ins[n..] == ins && ins[..n] + [ins[n]] == ins[..n + 1];
    LogNeverShrinks(c, ins[..n], ins[n..], p);
    HonestBefore(c, ins[..n + 1], ins, LogOf(c, PassedOn(c, ins[..n]), p), LogOf(c, PassedOn(c, ins), p), p);
  }

  /** A self-addressing identifier has no rivals. */
  lemma NoRival(c: Suite, passed: seq<Input>, m: ParsedMessage, p: string)
    requires c.digestCode(p).Some?
    ensures !Rival(c, passed, m, p)
  {
    hide Run, LogOf, Header, VerfersOf, Incept, Start, SaidOfMessage;
    if Rival(c, passed, m, p) {
      var e, h := WholeEntryOf(m), Header(m.serder.sad).value;
      AcceptedStarts(c, e, VerfersOf(c, m.serder.sad).value, Delegations.Proof(0, ""), (d, s, t) => Ok(None));
      StartFacts(c, e);
      BeginningHeader(c, e, h, Start(c, e).value);
      InceptionNamesItself(c, passed, p);
      NamesSaid(LogOf(c, passed, p)[0], p);
    }
  }

  lemma NamesSaid(m: ParsedMessage, p: string)
    requires GetStr(m.serder.sad, "d") == Some(p)
    ensures SaidOfMessage(m) == p
  {
  }

  /**
   * So there is no false accusation of a self-addressing identifier: while its accepted keys are
   * honest the verdict on it is never `Duplicitous`, whatever anybody sends; it says only whether a
   * log has been accepted.
   */
  lemma NoFalseAccusation(c: Suite, ins: seq<Input>, p: string)
    requires c.digestCode(p).Some? && Honest(c, ins, p)
    ensures VerdictOf(JudgeRun(c, ins), p) == if LogOf(c, PassedOn(c, ins), p) == [] then Unseen else Trusted
  {
    hide Honest, JudgeRun, LogOf, PassedOn, Run, Rival;
    HonestFlaggedExactly(c, ins, p);
    if n: nat :| RivalAt(c, ins, n, p) {
      NoRival(c, PassedOn(c, ins[..n]), ins[n].m, p);
    }
    VerdictMeaning(c, ins, p);
  }
}
