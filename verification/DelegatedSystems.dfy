/** Many identifiers verified side by side, some of them delegated by others. */
module DelegatedSystems {
  import opened Wrappers
  import opened Lists
  import opened Numerals
  import opened JsonValues
  import opened Primitives
  import opened Events
  import opened KeyStates
  import opened Signatures
  import opened Delegations
  import opened Kevers
  import opened Histories
  import opened Chains

  /** The verified logs by prefix, and the prefixes in the order their inceptions were accepted. */
  datatype System = System(logs: map<string, seq<Entry>>, order: seq<string>)

  datatype Action =
    | Incepts(e: Entry)
    | InceptsDelegated(e: Entry, proof: Proof)
    | Updates(prefix: string, e: Entry)
    | UpdatesDelegated(prefix: string, e: Entry, proof: Proof)

  /** One attempted acceptance, with the lookup that serves its anchors. */
  datatype Step = Step(action: Action, source: AnchorSource)

  /** The contract of `DelegatorAnchors`: anchors come only from events of already verified logs. */
  ghost predicate Honest(sys: System, source: AnchorSource) {
    forall d: string, sn: nat, said: string :: source(d, sn, said).Ok? && source(d, sn, said).value.Some? ==>
      d in sys.logs && sn < |sys.logs[d]| && source(d, sn, said).value.value == AnchorsOf(sys.logs[d][sn].sad)
  }

  function AddLog(sys: System, st: KeyState, e: Entry): Result<System> {
    if st.prefix in sys.logs then Err(AlreadyExists)
    else Ok(System(sys.logs[st.prefix := [e]], sys.order + [st.prefix]))
  }

  function ExtendLog(sys: System, prefix: string, e: Entry): System
    requires prefix in sys.logs
  {
    sys.(logs := sys.logs[prefix := sys.logs[prefix] + [e]])
  }

  function Attempt(c: Suite, sys: System, step: Step): Result<System> {
    match step.action
    case Incepts(e) =>
      var st :- Incept(c, e, EventKeys(e.sad));
      AddLog(sys, st, e)
    case InceptsDelegated(e, proof) =>
      var st :- InceptDelegated(c, e, EventKeys(e.sad), proof, step.source);
      AddLog(sys, st, e)
    case Updates(prefix, e) =>
      if prefix !in sys.logs then Err(NotFound)
      else
        var st :- Replay(c, sys.logs[prefix]);
        var _ :- NextState(c, st, e, Validation);
        Ok(ExtendLog(sys, prefix, e))
    case UpdatesDelegated(prefix, e, proof) =>
      if prefix !in sys.logs then Err(NotFound)
      else
        var st :- Replay(c, sys.logs[prefix]);
        var _ :- UpdateDelegated(c, st, e, proof, step.source);
        Ok(ExtendLog(sys, prefix, e))
  }

  function After(c: Suite, steps: seq<Step>): System {
    if steps == [] then System(map[], [])
    else
      var before := After(c, steps[..|steps| - 1]);
      match Attempt(c, before, steps[|steps| - 1])
      case Ok(sys) => sys
      case Err(_) => before
  }

  ghost predicate HonestRun(c: Suite, steps: seq<Step>) {
    forall i :: 0 <= i < |steps| ==> Honest(After(c, steps[..i]), steps[i].source)
  }

  // ---------- the invariant ----------

  predicate IsDelegatedEvent(e: Entry) {
    Ilk(e) == "dip" || Ilk(e) == "drt"
  }

  /** The event anchors a seal of prefix, number and SAID. */
  ghost predicate Anchors(anchor: Entry, prefix: string, sn: nat, said: string) {
    exists v :: v in AnchorsOf(anchor.sad) && EventSeal(v, prefix, sn, said)
  }

  /** Somewhere in `anchorLog` there is a seal for exactly event `e`, the `sn`-th of `prefix`. */
  ghost predicate SealedIn(anchorLog: seq<Entry>, prefix: string, sn: nat, e: Entry) {
    exists k, said ::
      0 <= k < |anchorLog| && GetStr(e.sad, "d") == Some(said) && Anchors(anchorLog[k], prefix, sn, said)
  }

  /** Every delegated event of `p` is sealed in the log of `p`'s delegator. */
  ghost predicate Anchored(c: Suite, sys: System, p: string)
    requires p in sys.logs
  {
    var log := sys.logs[p];
    forall i :: 0 <= i < |log| && IsDelegatedEvent(log[i]) ==>
      exists d :: GetStr(log[i].sad, "di") == Some(d) && d in sys.logs && SealedIn(sys.logs[d], p, i, log[i])
  }

  ghost predicate Verified(c: Suite, sys: System, p: string)
    requires p in sys.logs
  {
    Replay(c, sys.logs[p]).Ok? && Replay(c, sys.logs[p]).value.prefix == p
  }

  /** `d` was accepted before `p`. */
  ghost predicate Earlier(order: seq<string>, d: string, p: string) {
    exists i, j :: 0 <= i < j < |order| && order[i] == d && order[j] == p
  }

  ghost function DelegatorOf(c: Suite, sys: System, p: string): Option<string>
    requires p in sys.logs && Verified(c, sys, p)
  {
    Replay(c, sys.logs[p]).value.delegator
  }

  ghost predicate Ordered(c: Suite, sys: System, p: string)
    requires p in sys.logs && Verified(c, sys, p)
  {
    DelegatorOf(c, sys, p).Some? ==> Earlier(sys.order, DelegatorOf(c, sys, p).value, p)
  }

  ghost predicate Sound(c: Suite, sys: System) {
    && Distinct(sys.order)
    && (forall p :: p in sys.order <==> p in sys.logs)
    && (forall p :: p in sys.logs ==> Verified(c, sys, p) && Anchored(c, sys, p) && Ordered(c, sys, p))
  }

  // ---------- preservation ----------

  /** A delegation that checked out against an honest lookup is sealed in a verified log. */
  lemma CheckedDelegation(sys: System, source: AnchorSource, p: string, sn: nat, said: string, d: string, proof: Proof,
                          e: Entry)
    requires Honest(sys, source) && VerifyDelegation(p, sn, said, d, proof, source).Ok?
    requires GetStr(e.sad, "d") == Some(said)
    ensures d in sys.logs && d != p && SealedIn(sys.logs[d], p, sn, e)
  {
    DelegationExactly(p, sn, said, d, proof, source);
    hide EventSeal;
    assert Anchors(sys.logs[d][proof.sn], p, sn, said);
  }

  lemma SealedStays(log: seq<Entry>, more: Entry, p: string, sn: nat, e: Entry)
    requires SealedIn(log, p, sn, e)
    ensures SealedIn(log + [more], p, sn, e)
  {
    var k, said :| 0 <= k < |log| && GetStr(e.sad, "d") == Some(said) && Anchors(log[k], p, sn, said);
    assert (log + [more])[k] == log[k];
  }

  lemma EarlierStays(order: seq<string>, q: string, d: string, p: string)
    requires Earlier(order, d, p)
    ensures Earlier(order + [q], d, p)
  {
    var i, j :| 0 <= i < j < |order| && order[i] == d && order[j] == p;
    var longer := order + [q];
    assert longer[i] == d && longer[j] == p;
  }

  lemma SingleLog(c: Suite, e: Entry)
    ensures Replay(c, [e]) == Start(c, e)
  {
  }

  lemma AddedLog(c: Suite, sys: System, st: KeyState, e: Entry)
    requires Sound(c, sys) && Start(c, e) == Ok(st) && st.prefix !in sys.logs
    requires IsDelegatedEvent(e) ==> st.delegator.Some? && GetStr(e.sad, "di") == st.delegator
    requires st.delegator.Some? ==>
      st.delegator.value in sys.logs && SealedIn(sys.logs[st.delegator.value], st.prefix, 0, e)
    ensures Sound(c, AddLog(sys, st, e).value)
  {
    hide Replay, SealedIn, GetStr, Ilk, Start;
    var next := AddLog(sys, st, e).value;
    var q := st.prefix;
    SingleLog(c, e);
    assert q !in sys.order;
    assert next.logs[q] == [e];
    forall p | p in next.logs
      ensures Verified(c, next, p)
      ensures Anchored(c, next, p)
      ensures Ordered(c, next, p)
    {
      if p != q {
        assert Verified(c, sys, p) && Anchored(c, sys, p) && Ordered(c, sys, p);
        if DelegatorOf(c, sys, p).Some? {
          EarlierStays(sys.order, q, DelegatorOf(c, sys, p).value, p);
        }
      } else if st.delegator.Some? {
        var d := st.delegator.value;
        assert d in sys.order;
        var i :| 0 <= i < |sys.order| && sys.order[i] == d;
        assert next.order[i] == d && next.order[|sys.order|] == q;
      }
    }
  }

  lemma AppendReplay(c: Suite, log: seq<Entry>, e: Entry)
    requires Replay(c, log).Ok? && log != []
    ensures Replay(c, log + [e]) == Advance(c, Replay(c, log).value, e)
  {
    assert (log + [e])[..|log|] == log;
  }

  lemma ExtendedLog(c: Suite, sys: System, q: string, e: Entry, st2: KeyState)
    requires Sound(c, sys) && q in sys.logs
    requires Advance(c, Replay(c, sys.logs[q]).value, e) == Ok(st2)
    requires IsDelegatedEvent(e) ==>
      exists d :: GetStr(e.sad, "di") == Some(d) && d in sys.logs && SealedIn(sys.logs[d], q, |sys.logs[q]|, e)
    ensures Sound(c, ExtendLog(sys, q, e))
  {
    hide Replay, SealedIn, GetStr, Ilk, Earlier, Advance, Distinct, IsDelegatedEvent, Anchored;
    var next := ExtendLog(sys, q, e);
    assert Verified(c, sys, q);
    ExtendedState(c, sys.logs[q], e);
    forall p | p in next.logs
      ensures Verified(c, next, p)
      ensures Ordered(c, next, p)
      ensures Anchored(c, next, p)
    {
      assert Verified(c, sys, p) && Ordered(c, sys, p) && Anchored(c, sys, p);
      StillAnchored(c, sys, q, e, p);
    }
  }

  /** Extending a log changes neither its prefix nor its delegator. */
  lemma ExtendedState(c: Suite, log: seq<Entry>, e: Entry)
    requires Replay(c, log).Ok? && Advance(c, Replay(c, log).value, e).Ok?
    ensures Replay(c, log + [e]).Ok?
    ensures Replay(c, log + [e]).value.prefix == Replay(c, log).value.prefix
    ensures Replay(c, log + [e]).value.delegator == Replay(c, log).value.delegator
  {
    LastStep(c, log);
    AppendReplay(c, log, e);
    LastStep(c, log + [e]);
    assert (log + [e])[..|log|] == log;
    hide Replay, Vouched, Installs, Begins, Advance, GetStr, Committed;
  }

  lemma StillAnchored(c: Suite, sys: System, q: string, e: Entry, p: string)
    requires q in sys.logs && p in sys.logs && Anchored(c, sys, p)
    requires IsDelegatedEvent(e) ==>
      exists d :: GetStr(e.sad, "di") == Some(d) && d in sys.logs && SealedIn(sys.logs[d], q, |sys.logs[q]|, e)
    ensures Anchored(c, ExtendLog(sys, q, e), p)
  {
    hide SealedIn, GetStr, Ilk;
    var next := ExtendLog(sys, q, e);
    var log := next.logs[p];
    forall i | 0 <= i < |log| && IsDelegatedEvent(log[i])
      ensures exists d :: GetStr(log[i].sad, "di") == Some(d) && d in next.logs && SealedIn(next.logs[d], p, i, log[i])
    {
      var d;
      if i < |sys.logs[p]| {
        assert log[i] == sys.logs[p][i];
        d :| GetStr(log[i].sad, "di") == Some(d) && d in sys.logs && SealedIn(sys.logs[d], p, i, log[i]);
      } else {
        d :| GetStr(e.sad, "di") == Some(d) && d in sys.logs && SealedIn(sys.logs[d], q, |sys.logs[q]|, e);
      }
      if d == q {
        SealedStays(sys.logs[d], e, p, i, log[i]);
      }
    }
  }

  /** Plain acceptance never accepts a delegated event. */
  lemma PlainEventsAreNotDelegated(c: Suite, st: KeyState, e: Entry)
    ensures Incept(c, e, EventKeys(e.sad)).Ok? ==> !IsDelegatedEvent(e)
    ensures NextState(c, st, e, Validation).Ok? ==> !IsDelegatedEvent(e)
  {
    if Incept(c, e, EventKeys(e.sad)).Ok? {
      CheckedInceptionFacts(c, e, "icp", EventKeys(e.sad));
    }
    if NextState(c, st, e, Validation).Ok? {
      CheckedNextFacts(c, st, e, Validation);
    }
    hide CheckInception, CheckNext, CheckRotation, CheckInteraction, ApplyRotation, ApplyInteraction, EventSaid;
  }

  /** The three stages of an accepted delegated inception. */
  lemma DelegatedInceptionStages(c: Suite, e: Entry, keys: seq<string>, proof: Proof, source: AnchorSource)
    requires InceptDelegated(c, e, keys, proof, source).Ok?
    ensures CheckDelegatedInception(c, e, keys).Ok?
    ensures var dip := CheckDelegatedInception(c, e, keys).value;
      && VerifyDelegation(dip.base.prefix, 0, dip.base.said, dip.delegator, proof, source).Ok?
      && InceptionState(dip.base, Some(dip.delegator)) == InceptDelegated(c, e, keys, proof, source)
  {
    hide CheckDelegatedInception, VerifyDelegation, InceptionState, Parse;
  }

  lemma CheckedDelegatedInception(c: Suite, e: Entry, keys: seq<string>)
    requires CheckDelegatedInception(c, e, keys).Ok?
    ensures var dip := CheckDelegatedInception(c, e, keys).value;
      && CheckInception(c, e, "dip", keys) == Ok(dip.base) && GetStr(e.sad, "di") == Some(dip.delegator)
  {
    hide CheckInception, GetStr;
  }

  lemma DelegatedInceptionFacts(c: Suite, e: Entry, proof: Proof, source: AnchorSource)
    requires InceptDelegated(c, e, EventKeys(e.sad), proof, source).Ok?
    ensures var st := InceptDelegated(c, e, EventKeys(e.sad), proof, source).value;
      && st.delegator.Some? && GetStr(e.sad, "di") == st.delegator && GetStr(e.sad, "d") == Some(st.lastDigest)
      && VerifyDelegation(st.prefix, 0, st.lastDigest, st.delegator.value, proof, source).Ok?
  {
    var keys := EventKeys(e.sad);
    hide InceptDelegated, CheckDelegatedInception, CheckInception, VerifyDelegation, InceptionState, InceptionOf,
         EventSaid, VerifySigs, GetStr, EventKeys, Ilk;
    hide StrArrField, ThresholdField;
    DelegatedInceptionStages(c, e, keys, proof, source);
    CheckedDelegatedInception(c, e, keys);
    CheckedInceptionFacts(c, e, "dip", keys);
    InceptionFields(e.sad);
    var dip := CheckDelegatedInception(c, e, keys).value;
    InceptionStateFacts(dip.base, Some(dip.delegator));
  }

  lemma DelegatedRotationFacts(c: Suite, st: KeyState, e: Entry, proof: Proof, source: AnchorSource)
    requires UpdateDelegated(c, st, e, proof, source).Ok?
    ensures Ilk(e) == "drt" && st.delegator.Some? && GetStr(e.sad, "di") == st.delegator
    ensures exists said ::
      GetStr(e.sad, "d") == Some(said) &&
      VerifyDelegation(st.prefix, st.sn + 1, said, st.delegator.value, proof, source).Ok?
  {
    CheckedNextFacts(c, st, e, MissingField("s"));
    CheckedRotationFacts(c, e);
    RotationFields(e.sad);
    var rot := CheckRotation(c, e).value;
    AppliedRotation(c, st, rot);
    hide CheckNext, CheckRotation, VerifyDelegation, EventSaid, RotationOf, VerifySigs, GetStr, ApplyRotation,
         Committed, StrArrField, ThresholdField, Ilk;
    assert GetStr(e.sad, "d") == Some(rot.said);
  }

  lemma StepKeepsSound(c: Suite, sys: System, step: Step)
    requires Sound(c, sys) && Honest(sys, step.source) && Attempt(c, sys, step).Ok?
    ensures Sound(c, Attempt(c, sys, step).value)
  {
    hide Start, Advance, Incept, InceptDelegated, NextState, UpdateDelegated, Replay, GetStr, Ilk, Sound, Honest,
         SealedIn, IsDelegatedEvent, AddLog, VerifyDelegation;
    match step.action
    case Incepts(e) => InceptsKeeps(c, sys, step.source, e);
    case InceptsDelegated(e, proof) => InceptsDelegatedKeeps(c, sys, step.source, e, proof);
    case Updates(q, e) => UpdatesKeeps(c, sys, step.source, q, e);
    case UpdatesDelegated(q, e, proof) => UpdatesDelegatedKeeps(c, sys, step.source, q, e, proof);
  }

  lemma InceptsKeeps(c: Suite, sys: System, source: AnchorSource, e: Entry)
    requires Sound(c, sys) && Incept(c, e, EventKeys(e.sad)).Ok?
    ensures var next := AddLog(sys, Incept(c, e, EventKeys(e.sad)).value, e);
      next.Ok? ==> Sound(c, next.value)
  {
    var st := Incept(c, e, EventKeys(e.sad)).value;
    AcceptedStarts(c, e, EventKeys(e.sad), Proof(0, ""), source);
    PlainEventsAreNotDelegated(c, st, e);
    StartFacts(c, e);
    hide Start, Incept, GetStr, Sound, SealedIn, Vouched, Installs;
    if st.prefix !in sys.logs {
      AddedLog(c, sys, st, e);
    }
  }

  lemma InceptsDelegatedKeeps(c: Suite, sys: System, source: AnchorSource, e: Entry, proof: Proof)
    requires Sound(c, sys) && Honest(sys, source) && InceptDelegated(c, e, EventKeys(e.sad), proof, source).Ok?
    ensures var next := AddLog(sys, InceptDelegated(c, e, EventKeys(e.sad), proof, source).value, e);
      next.Ok? ==> Sound(c, next.value)
  {
    var st := InceptDelegated(c, e, EventKeys(e.sad), proof, source).value;
    AcceptedStarts(c, e, EventKeys(e.sad), proof, source);
    DelegatedInceptionFacts(c, e, proof, source);
    hide Start, InceptDelegated, GetStr, Sound, SealedIn, Honest, VerifyDelegation, Ilk;
    CheckedDelegation(sys, source, st.prefix, 0, st.lastDigest, st.delegator.value, proof, e);
    if st.prefix !in sys.logs {
      AddedLog(c, sys, st, e);
    }
  }

  lemma UpdatesKeeps(c: Suite, sys: System, source: AnchorSource, q: string, e: Entry)
    requires Sound(c, sys) && q in sys.logs && Replay(c, sys.logs[q]).Ok?
    requires NextState(c, Replay(c, sys.logs[q]).value, e, Validation).Ok?
    ensures Sound(c, ExtendLog(sys, q, e))
  {
    var st := Replay(c, sys.logs[q]).value;
    AcceptedAdvances(c, st, e, Validation, Proof(0, ""), source);
    PlainEventsAreNotDelegated(c, st, e);
    hide Advance, NextState, Replay, Sound, ExtendLog, SealedIn, Ilk;
    ExtendedLog(c, sys, q, e, NextState(c, st, e, Validation).value);
  }

  lemma UpdatesDelegatedKeeps(c: Suite, sys: System, source: AnchorSource, q: string, e: Entry, proof: Proof)
    requires Sound(c, sys) && Honest(sys, source) && q in sys.logs && Replay(c, sys.logs[q]).Ok?
    requires UpdateDelegated(c, Replay(c, sys.logs[q]).value, e, proof, source).Ok?
    ensures Sound(c, ExtendLog(sys, q, e))
  {
    var st := Replay(c, sys.logs[q]).value;
    AcceptedAdvances(c, st, e, Validation, proof, source);
    DelegatedRotationFacts(c, st, e, proof, source);
    assert Verified(c, sys, q);
    LastKeysInForce(c, sys.logs[q]);
    hide Advance, UpdateDelegated, Replay, Sound, ExtendLog, SealedIn, Ilk, GetStr, Honest, VerifyDelegation, Installs;
    var said :| GetStr(e.sad, "d") == Some(said) &&
      VerifyDelegation(st.prefix, st.sn + 1, said, st.delegator.value, proof, source).Ok?;
    CheckedDelegation(sys, source, q, st.sn + 1, said, st.delegator.value, proof, e);
    ExtendedLog(c, sys, q, e, UpdateDelegated(c, st, e, proof, source).value);
  }

  /** Every reachable system is sound, whatever mix of acceptances and refusals led to it. */
  lemma {:induction false} ReachableIsSound(c: Suite, steps: seq<Step>)
    requires HonestRun(c, steps)
    ensures Sound(c, After(c, steps))
  {
    hide Attempt, Honest;
    if steps != [] {
      var n := |steps| - 1;
      var init := steps[..n];
      forall i | 0 <= i < n ensures Honest(After(c, init[..i]), init[i].source) {
        assert init[..i] == steps[..i] && Honest(After(c, steps[..i]), steps[i].source);
      }
      ReachableIsSound(c, init);
      assert Honest(After(c, steps[..n]), steps[n].source);
      if Attempt(c, After(c, init), steps[n]).Ok? {
        StepKeepsSound(c, After(c, init), steps[n]);
      }
    }
  }

  // ---------- consequences ----------

  /**
   * In every reachable system each log has the shape of its family under one delegator, each
   * delegated event is sealed in that delegator's verified log, and the delegator came first.
   */
  lemma DelegationIsAnchored(c: Suite, steps: seq<Step>, p: string)
    requires HonestRun(c, steps) && p in After(c, steps).logs
    ensures var sys := After(c, steps);
      var log := sys.logs[p];
      && Replay(c, log).Ok? && Shaped(log, Replay(c, log).value)
      && (var d := Replay(c, log).value.delegator;
          d.Some? ==>
            && d.value in sys.logs && Earlier(sys.order, d.value, p)
            && forall i :: 0 <= i < |log| && IsDelegatedEvent(log[i]) ==> SealedIn(sys.logs[d.value], p, i, log[i]))
  {
    var sys := After(c, steps);
    ReachableIsSound(c, steps);
    hide After, Replay, SealedIn, GetStr, Ilk;
    assert Verified(c, sys, p) && Anchored(c, sys, p) && Ordered(c, sys, p);
    LogShape(c, sys.logs[p]);
  }

  /** `chain[k]` is delegated by `chain[k + 1]`, for every `k`. */
  ghost predicate DelegationChain(c: Suite, sys: System, chain: seq<string>)
    requires Sound(c, sys)
  {
    && (forall k :: 0 <= k < |chain| ==> chain[k] in sys.logs)
    && forall k :: 0 <= k < |chain| - 1 ==> DelegatorOf(c, sys, chain[k]) == Some(chain[k + 1])
  }

  lemma EarlierIsStrict(order: seq<string>, p: string)
    requires Distinct(order)
    ensures !Earlier(order, p, p)
  {
  }

  lemma SamePlace(order: seq<string>, j: nat, k: nat)
    requires Distinct(order) && j < |order| && k < |order| && order[j] == order[k]
    ensures j == k
  {
  }

  lemma EarlierTransitive(order: seq<string>, a: string, b: string, d: string)
    requires Distinct(order) && Earlier(order, a, b) && Earlier(order, b, d)
    ensures Earlier(order, a, d)
  {
    var i, j :| 0 <= i < j < |order| && order[i] == a && order[j] == b;
    var k, l :| 0 <= k < l < |order| && order[k] == b && order[l] == d;
    SamePlace(order, j, k);
  }

  lemma {:induction false} ChainDescends(c: Suite, sys: System, chain: seq<string>)
    requires Sound(c, sys) && |chain| >= 2 && DelegationChain(c, sys, chain)
    ensures Earlier(sys.order, chain[|chain| - 1], chain[0])
  {
    hide Replay, Earlier, Anchored;
    assert DelegatorOf(c, sys, chain[0]) == Some(chain[1]);
    assert Ordered(c, sys, chain[0]);
    if |chain| > 2 {
      ChainDescends(c, sys, chain[1..]);
      EarlierTransitive(sys.order, chain[|chain| - 1], chain[1], chain[0]);
    }
  }

  /** No reachable system has a cycle of delegation. */
  lemma NoDelegationCycle(c: Suite, steps: seq<Step>, chain: seq<string>)
    requires HonestRun(c, steps) && |chain| >= 2
    ensures Sound(c, After(c, steps))
    ensures DelegationChain(c, After(c, steps), chain) ==> chain[0] != chain[|chain| - 1]
  {
    ReachableIsSound(c, steps);
    if DelegationChain(c, After(c, steps), chain) {
      ChainDescends(c, After(c, steps), chain);
      EarlierIsStrict(After(c, steps).order, chain[0]);
    }
  }
}
