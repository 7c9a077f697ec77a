/** Delegation end to end: a delegator's controller anchors a seal, and the delegated event is accepted. */
module DelegatedLives {
  import opened Wrappers
  import opened JsonValues
  import opened Primitives
  import opened Serders
  import opened WireValues
  import opened Numerals
  import opened Events
  import opened KeyStates
  import opened Delegations
  import opened Kevers
  import opened Histories
  import opened Chains
  import opened DelegatedSystems
  import opened Habs
  import opened HabRuns
  import opened Simulation

  /** A lookup over the verified logs: the anchors of the event at that place, if it has that SAID. */
  ghost predicate Serves(sys: System, source: AnchorSource) {
    forall d: string, sn: nat, said: string :: source(d, sn, said) ==
      Ok(if d in sys.logs && sn < |sys.logs[d]| && GetStr(sys.logs[d][sn].sad, "d") == Some(said)
         then Some(AnchorsOf(sys.logs[d][sn].sad)) else None)
  }

  /** A call that makes the identifier `h` anchor these values. */
  ghost predicate Anchoring(c: Suite, kr: Keyring, sys: System, h: Habitat, anchors: seq<Json>, commits: bool) {
    && Ideal(c, kr) && Derived(kr, h) && h.sn + 1 < U64
    && Sound(c, sys) && h.prefix in sys.logs && Agrees(c, h, Replay(c, sys.logs[h.prefix]).value)
    && Interacted(c, kr, h, anchors, commits).1.Ok? && WellFormed(c, Arr(anchors), MAX_DEPTH - 1)
    && DeclaredSize(InteractionDraft(h, anchors)) < 0x100_0000 && NotThePrefix(c, h, InteractionDraft(h, anchors))
  }

  /**
   * The interaction that a controller emits with a seal among its anchors is accepted into the
   * system, and from then on every lookup over the verified logs authorises the sealed event.
   */
  lemma AnchorGoesThrough(c: Suite, kr: Keyring, sys: System, h: Habitat, anchors: seq<Json>, commits: bool,
                          p: string, sn: nat, said: string) returns (entry: Entry)
    requires Anchoring(c, kr, sys, h, anchors, commits) && p != h.prefix && WrittenSeal(p, sn, said) in anchors
    ensures var e, next := Interacted(c, kr, h, anchors, commits).1.value, ExtendLog(sys, h.prefix, entry);
      && Delivered(c, e) == Ok(entry)
      && (forall source :: Attempt(c, sys, Step(Updates(h.prefix, entry), source)) == Ok(next)) && Sound(c, next)
      && forall source: AnchorSource :: Serves(next, source) ==>
           VerifyDelegation(p, sn, said, h.prefix, Proof(h.sn + 1, e.said), source).Ok?
  {
    hide Ideal, Derived, Agrees, NextState, Advance, Replay, NotThePrefix, DeclaredSize, Interacted, Delivered, Sound,
         Verified, GetStr, Honest, Serves, VerifyDelegation, EventSeal, WellFormed, AnchorsOf, WrittenSeal;
    var log := sys.logs[h.prefix];
    SoundLog(c, sys, h.prefix);
    var st := Replay(c, log).value;
    entry := InteractionSimulated(c, kr, h, st, anchors, commits);
    var e, next := Interacted(c, kr, h, anchors, commits).1.value, ExtendLog(sys, h.prefix, entry);
    var none: AnchorSource := (d, s, t) => Ok(None);
    UpdateTaken(c, sys, h.prefix, entry);
    UpdatesKeeps(c, sys, none, h.prefix, entry);
    AgreedNumber(c, h, st);
    AnchorsRead(entry.sad, anchors);
    WrittenSealReads(p, sn, said);
    forall source: AnchorSource | Serves(next, source)
      ensures VerifyDelegation(p, sn, said, h.prefix, Proof(h.sn + 1, e.said), source).Ok?
    {
      Served(next, source, h.prefix, h.sn + 1, e.said);
      DelegationExactly(p, sn, said, h.prefix, Proof(h.sn + 1, e.said), source);
      assert WrittenSeal(p, sn, said) in anchors;
    }
  }

  lemma SoundLog(c: Suite, sys: System, p: string)
    requires Sound(c, sys) && p in sys.logs
    ensures sys.logs[p] != [] && Replay(c, sys.logs[p]).Ok? && Replay(c, sys.logs[p]).value.prefix == p
    ensures Replay(c, sys.logs[p]).value.sn == |sys.logs[p]| - 1
  {
    assert Verified(c, sys, p);
    hide Replay, Anchored, Ordered;
    LastKeysInForce(c, sys.logs[p]);
  }

  lemma UpdateTaken(c: Suite, sys: System, p: string, e: Entry)
    requires p in sys.logs && Replay(c, sys.logs[p]).Ok?
    requires NextState(c, Replay(c, sys.logs[p]).value, e, Validation).Ok?
    ensures forall source :: Attempt(c, sys, Step(Updates(p, e), source)) == Ok(ExtendLog(sys, p, e))
  {
    hide Replay, NextState;
  }

  lemma AgreedNumber(c: Suite, h: Habitat, st: KeyState)
    requires Agrees(c, h, st)
    ensures st.sn == h.sn && st.prefix == h.prefix != ""
  {
  }

  lemma AnchorsRead(sad: Json, anchors: seq<Json>)
    requires ArrField(sad, "a") == Ok(anchors)
    ensures AnchorsOf(sad) == anchors
  {
  }

  lemma Served(sys: System, source: AnchorSource, d: string, sn: nat, said: string)
    requires Serves(sys, source) && d in sys.logs && sn < |sys.logs[d]|
    requires GetStr(sys.logs[d][sn].sad, "d") == Some(said)
    ensures source(d, sn, said) == Ok(Some(AnchorsOf(sys.logs[d][sn].sad)))
  {
  }

  /** A delegated inception that passes its other checks is accepted once it has been anchored. */
  lemma DelegatedInceptionGoesThrough(c: Suite, kr: Keyring, sys: System, h: Habitat, anchors: seq<Json>,
                                      commits: bool, e: Entry) returns (entry: Entry)
    requires Anchoring(c, kr, sys, h, anchors, commits)
    requires CheckDelegatedInception(c, e, EventKeys(e.sad)).Ok?
    requires var dip := CheckDelegatedInception(c, e, EventKeys(e.sad)).value;
      && FromDelegatedInception(dip).Ok? && dip.delegator == h.prefix && dip.base.prefix !in sys.logs
      && WrittenSeal(dip.base.prefix, 0, dip.base.said) in anchors
    ensures var x, next := Interacted(c, kr, h, anchors, commits).1.value, ExtendLog(sys, h.prefix, entry);
      var p := CheckDelegatedInception(c, e, EventKeys(e.sad)).value.base.prefix;
      && Delivered(c, x) == Ok(entry) && Sound(c, next)
      && (forall source :: Attempt(c, sys, Step(Updates(h.prefix, entry), source)) == Ok(next))
      && forall source: AnchorSource :: Serves(next, source) ==>
           Attempt(c, next, Step(InceptsDelegated(e, Proof(h.sn + 1, x.said)), source)) ==
             Ok(System(next.logs[p := [e]], next.order + [p]))
  {
    hide CheckDelegatedInception, VerifyDelegation, Interacted, Serves, Sound, EventKeys, Delivered, WrittenSeal,
         FromDelegatedInception, Attempt, Ideal, Derived, Agrees, Replay, NotThePrefix, DeclaredSize, WellFormed;
    var dip := CheckDelegatedInception(c, e, EventKeys(e.sad)).value;
    entry := AnchorGoesThrough(c, kr, sys, h, anchors, commits, dip.base.prefix, 0, dip.base.said);
    var x, next := Interacted(c, kr, h, anchors, commits).1.value, ExtendLog(sys, h.prefix, entry);
    hide Anchoring;
    forall source: AnchorSource | Serves(next, source)
      ensures Attempt(c, next, Step(InceptsDelegated(e, Proof(h.sn + 1, x.said)), source)) ==
        Ok(System(next.logs[dip.base.prefix := [e]], next.order + [dip.base.prefix]))
    {
      InceptionAuthorised(c, next, e, Proof(h.sn + 1, x.said), source);
    }
  }

  /** Everything checked but the anchor, and then the anchor. */
  lemma InceptionAuthorised(c: Suite, sys: System, e: Entry, proof: Proof, source: AnchorSource)
    requires CheckDelegatedInception(c, e, EventKeys(e.sad)).Ok?
    requires var dip := CheckDelegatedInception(c, e, EventKeys(e.sad)).value;
      && FromDelegatedInception(dip).Ok? && dip.base.prefix !in sys.logs
      && VerifyDelegation(dip.base.prefix, 0, dip.base.said, dip.delegator, proof, source).Ok?
    ensures var p := CheckDelegatedInception(c, e, EventKeys(e.sad)).value.base.prefix;
      Attempt(c, sys, Step(InceptsDelegated(e, proof), source)) == Ok(System(sys.logs[p := [e]], sys.order + [p]))
  {
    hide CheckDelegatedInception, VerifyDelegation, EventKeys, FromDelegatedInception;
    DelegatedPrefix(CheckDelegatedInception(c, e, EventKeys(e.sad)).value);
  }

  lemma DelegatedPrefix(dip: DelegatedInceptionEvent)
    requires FromDelegatedInception(dip).Ok?
    ensures FromDelegatedInception(dip).value.prefix == dip.base.prefix
  {
    hide Parse;
  }

  /** The same for a delegated rotation of an identifier already delegated by `h`. */
  lemma DelegatedRotationGoesThrough(c: Suite, kr: Keyring, sys: System, h: Habitat, anchors: seq<Json>,
                                     commits: bool, p: string, e: Entry) returns (entry: Entry)
    requires Anchoring(c, kr, sys, h, anchors, commits) && p in sys.logs && p != h.prefix
    requires var st := Replay(c, sys.logs[p]).value; CheckDelegatedRotation(c, st, e).Ok?
    requires var st := Replay(c, sys.logs[p]).value; var drt := CheckDelegatedRotation(c, st, e).value;
      && ApplyDelegatedRotation(c, st, drt).Ok? && drt.delegator == h.prefix
      && WrittenSeal(p, st.sn + 1, drt.base.said) in anchors
    ensures var x, next := Interacted(c, kr, h, anchors, commits).1.value, ExtendLog(sys, h.prefix, entry);
      && Delivered(c, x) == Ok(entry) && Sound(c, next)
      && (forall source :: Attempt(c, sys, Step(Updates(h.prefix, entry), source)) == Ok(next))
      && forall source: AnchorSource :: Serves(next, source) ==>
           Attempt(c, next, Step(UpdatesDelegated(p, e, Proof(h.sn + 1, x.said)), source)) == Ok(ExtendLog(next, p, e))
  {
    hide CheckDelegatedRotation, VerifyDelegation, Interacted, Serves, Sound, Delivered, WrittenSeal, Replay,
         ApplyDelegatedRotation, Attempt, Ideal, Derived, Agrees, NotThePrefix, DeclaredSize, WellFormed;
    SoundLog(c, sys, p);
    var st := Replay(c, sys.logs[p]).value;
    var drt := CheckDelegatedRotation(c, st, e).value;
    entry := AnchorGoesThrough(c, kr, sys, h, anchors, commits, p, st.sn + 1, drt.base.said);
    var x, next := Interacted(c, kr, h, anchors, commits).1.value, ExtendLog(sys, h.prefix, entry);
    hide Anchoring;
    NamesPrefix(c, st, drt);
    forall source: AnchorSource | Serves(next, source)
      ensures Attempt(c, next, Step(UpdatesDelegated(p, e, Proof(h.sn + 1, x.said)), source)) ==
        Ok(ExtendLog(next, p, e))
    {
      RotationAuthorised(c, next, p, e, Proof(h.sn + 1, x.said), source);
    }
  }

  lemma RotationAuthorised(c: Suite, sys: System, p: string, e: Entry, proof: Proof, source: AnchorSource)
    requires p in sys.logs && Replay(c, sys.logs[p]).Ok?
    requires CheckDelegatedRotation(c, Replay(c, sys.logs[p]).value, e).Ok?
    requires var st := Replay(c, sys.logs[p]).value; var drt := CheckDelegatedRotation(c, st, e).value;
      && ApplyDelegatedRotation(c, st, drt).Ok?
      && VerifyDelegation(drt.base.prefix, st.sn + 1, drt.base.said, drt.delegator, proof, source).Ok?
    ensures Attempt(c, sys, Step(UpdatesDelegated(p, e, proof), source)) == Ok(ExtendLog(sys, p, e))
  {
    hide CheckDelegatedRotation, VerifyDelegation, Replay, ApplyDelegatedRotation;
  }

  lemma NamesPrefix(c: Suite, st: KeyState, drt: DelegatedRotationEvent)
    requires ApplyDelegatedRotation(c, st, drt).Ok?
    ensures drt.base.prefix == st.prefix
  {
    hide Parse, Committed, UpdateBackers;
  }
}
