/** Runs of a registry, restarts included: what a record is worth to an identifier that has gone on. */
module HaberyRuns {
  import opened Wrappers
  import opened JsonValues
  import opened Primitives
  import opened WireValues
  import opened Stores
  import opened Habs
  import opened HabRecords
  import opened HabRuns
  import opened Haberies

  function Run(c: Suite, kr: Keyring, calls: seq<Call>): Registry {
    if calls == [] then NEW_REGISTRY
    else Called(c, kr, Run(c, kr, calls[..|calls| - 1]), calls[|calls| - 1])
  }

  predicate Founds(c: Suite, kr: Keyring, g: Registry, call: Call, name: string) {
    && call.InceptHab? && call.name == name && name !in g.habs
    && Incepted(c, kr, name, call.inception, call.commits).Ok?
  }

  /** The identifier of this name as it was made by the last inception under the name. */
  function Born(c: Suite, kr: Keyring, calls: seq<Call>, name: string): Option<Habitat> {
    if calls == [] then None
    else
      var init, call := calls[..|calls| - 1], calls[|calls| - 1];
      if Founds(c, kr, Run(c, kr, init), call, name)
      then Some(Incepted(c, kr, name, call.inception, call.commits).value.0)
      else Born(c, kr, init, name)
  }

  // ---------- the record ----------

  /** Under the name is the record of that identifier, and nothing if there is none. */
  ghost predicate RecordOfBirth(habs: map<string, string>, name: string, b: Option<Habitat>) {
    && (name in habs <==> b.Some?)
    && (b.Some? ==> habs[name] == Print(HabRecord(StateOf(b.value))))
  }

  lemma RecordStep(c: Suite, kr: Keyring, g: Registry, call: Call, name: string)
    ensures Called(c, kr, g, call).tables.habs ==
      if call.InceptHab? && Founds(c, kr, g, call, call.name)
      then g.tables.habs[call.name :=
             Print(HabRecord(StateOf(Incepted(c, kr, call.name, call.inception, call.commits).value.0)))]
      else g.tables.habs
  {
    hide Incepted, Rotated, Interacted, Resumed, ReadRecord, HabRecord, Print, SnKey;
  }

  /** Whatever else is called, the record under a name is the one its inception left. */
  lemma {:induction false} RecordsAreOfBirth(c: Suite, kr: Keyring, calls: seq<Call>, name: string)
    ensures RecordOfBirth(Run(c, kr, calls).tables.habs, name, Born(c, kr, calls, name))
  {
    hide Called, Incepted, HabRecord, Print;
    if calls != [] {
      var init := calls[..|calls| - 1];
      RecordsAreOfBirth(c, kr, init, name);
      RecordStep(c, kr, Run(c, kr, init), calls[|calls| - 1], name);
    }
  }

  /** Someone born can be derived again from the salt. */
  lemma {:induction false} BornDerives(c: Suite, kr: Keyring, calls: seq<Call>, name: string)
    requires Born(c, kr, calls, name).Some?
    ensures Derived(kr, Born(c, kr, calls, name).value) && Born(c, kr, calls, name).value.sn == 0
  {
    hide Run, Incepted, Derived;
    var init, call := calls[..|calls| - 1], calls[|calls| - 1];
    if Founds(c, kr, Run(c, kr, init), call, name) {
      InceptionDerives(c, kr, name, call.inception, call.commits);
      StartsAtZero(c, kr, name, call.inception, call.commits);
    } else {
      BornDerives(c, kr, init, name);
    }
  }

  /** What the store gives back is the identifier as it was right after its inception. */
  lemma StoredIsBirth(c: Suite, kr: Keyring, calls: seq<Call>, name: string)
    requires DecodeLaw(c) && NumberLaw(c) && Born(c, kr, calls, name).Some?
    requires Storable(StateOf(Born(c, kr, calls, name).value))
    ensures var b := Born(c, kr, calls, name).value;
      Stored(c, kr, Run(c, kr, calls).tables, name, b.salt) == Ok(b)
  {
    hide Run, Born, Resumed, ReadRecord, HabRecord, Print, Derived, Storable, DecodeLaw, NumberLaw;
    var b := Born(c, kr, calls, name).value;
    RecordsAreOfBirth(c, kr, calls, name);
    BornDerives(c, kr, calls, name);
    RecordRoundTrip(c, StateOf(b));
    ResumeIsIdentity(kr, b);
  }

  // ---------- the registered identifier ----------

  /** As long as its number is 0 the identifier is as it was born, but that it may have lost its next keys. */
  predicate Descends(b: Habitat, h: Habitat) {
    h.sn == 0 ==> h == b.(nextSigners := h.nextSigners) && (h.nextSigners == b.nextSigners || h.nextSigners == [])
  }

  /** Every resumption is given the identifier's own salt. */
  ghost predicate RightSalts(c: Suite, kr: Keyring, calls: seq<Call>) {
    forall k :: 0 <= k < |calls| && calls[k].ResumeHab? ==> RightSalt(c, kr, calls[..k], calls[k])
  }

  ghost predicate RightSalt(c: Suite, kr: Keyring, calls: seq<Call>, call: Call)
    requires call.ResumeHab?
  {
    var b := Born(c, kr, calls, call.name);
    b.Some? ==> call.salt == b.value.salt && Storable(StateOf(b.value))
  }

  ghost predicate AllDescend(c: Suite, kr: Keyring, calls: seq<Call>) {
    forall name :: name in Run(c, kr, calls).habs ==>
      Born(c, kr, calls, name).Some? && Descends(Born(c, kr, calls, name).value, Run(c, kr, calls).habs[name])
  }

  lemma CallDescends(c: Suite, kr: Keyring, b: Habitat, h: Habitat, rotation: RotationConfig, anchors: seq<Json>,
                     commits: bool)
    requires Descends(b, h)
    ensures Descends(b, Rotated(c, kr, h, rotation, commits).0)
    ensures Descends(b, Interacted(c, kr, h, anchors, commits).0)
  {
    hide RotationOutcome, Finish, InteractionDraft;
  }

  /** A call changes no registered identifier but the one it names. */
  lemma CallStep(c: Suite, kr: Keyring, g: Registry, call: Call, name: string)
    requires name in Called(c, kr, g, call).habs
    ensures var h := Called(c, kr, g, call).habs[name];
      || (name in g.habs && h == g.habs[name])
      || (Founds(c, kr, g, call, name) &&
          h == Incepted(c, kr, name, call.inception, call.commits).value.0)
      || (call.ResumeHab? && call.name == name && Stored(c, kr, g.tables, name, call.salt) == Ok(h))
      || (call.RotateHab? && name in g.habs && h == Rotated(c, kr, g.habs[name], call.rotation, call.commits).0)
      || (call.InteractHab? && name in g.habs && h == Interacted(c, kr, g.habs[name], call.anchors, call.commits).0)
  {
    hide Incepted, Rotated, Interacted, Stored, Founded, EventStored;
  }

  lemma RunStep(c: Suite, kr: Keyring, calls: seq<Call>)
    requires calls != []
    ensures Run(c, kr, calls) == Called(c, kr, Run(c, kr, calls[..|calls| - 1]), calls[|calls| - 1])
  {
    hide Called;
  }

  lemma NothingRun(c: Suite, kr: Keyring)
    ensures Run(c, kr, []) == NEW_REGISTRY
    ensures forall name :: Born(c, kr, [], name) == None
  {
  }

  /** Unless it names an inception that succeeds, a call leaves the birth as it was. */
  lemma BornStays(c: Suite, kr: Keyring, calls: seq<Call>, name: string)
    requires calls != []
    ensures var init, call := calls[..|calls| - 1], calls[|calls| - 1];
      Born(c, kr, calls, name) ==
        if Founds(c, kr, Run(c, kr, init), call, name)
        then Some(Incepted(c, kr, name, call.inception, call.commits).value.0) else Born(c, kr, init, name)
  {
    hide Incepted, Founds, Run;
  }

  lemma LastDescends(c: Suite, kr: Keyring, calls: seq<Call>, name: string)
    requires DecodeLaw(c) && NumberLaw(c) && RightSalts(c, kr, calls)
    requires calls != [] && AllDescend(c, kr, calls[..|calls| - 1]) && name in Run(c, kr, calls).habs
    ensures Born(c, kr, calls, name).Some? && Descends(Born(c, kr, calls, name).value, Run(c, kr, calls).habs[name])
  {
    var init, call := calls[..|calls| - 1], calls[|calls| - 1];
    var g := Run(c, kr, init);
    assert Run(c, kr, calls) == Called(c, kr, g, call);
    BornStays(c, kr, calls, name);
    CallStep(c, kr, g, call, name);
    hide Run, Born, Called, Incepted, Rotated, Interacted, Stored, DecodeLaw, NumberLaw, RightSalt, Descends;
    var h := Run(c, kr, calls).habs[name];
    if Founds(c, kr, g, call, name) {
      BornDerives(c, kr, calls, name);
      DescendsFromItself(h);
    } else if call.ResumeHab? && call.name == name && Stored(c, kr, g.tables, name, call.salt) == Ok(h) {
      RecordsAreOfBirth(c, kr, init, name);
      StoredIsKnown(c, kr, g.tables, name, call.salt);
      assert RightSalt(c, kr, calls[..|calls| - 1], call);
      RightSaltFacts(c, kr, init, call);
      StoredIsBirth(c, kr, init, name);
      DescendsFromItself(h);
    } else if call.RotateHab? {
      CallDescends(c, kr, Born(c, kr, init, name).value, g.habs[name], call.rotation, [], call.commits);
    } else if call.InteractHab? {
      CallDescends(c, kr, Born(c, kr, init, name).value, g.habs[name], RotationConfig(0, 0, 0, [], []), call.anchors,
                   call.commits);
    }
  }

  lemma DescendsFromItself(h: Habitat)
    ensures Descends(h, h)
  {
  }

  lemma StoredIsKnown(c: Suite, kr: Keyring, t: Tables, name: string, salt: string)
    requires Stored(c, kr, t, name, salt).Ok?
    ensures name in t.habs
  {
    hide ReadRecord, Resumed;
  }

  lemma RightSaltFacts(c: Suite, kr: Keyring, calls: seq<Call>, call: Call)
    requires call.ResumeHab? && RightSalt(c, kr, calls, call) && Born(c, kr, calls, call.name).Some?
    ensures var b := Born(c, kr, calls, call.name).value; call.salt == b.salt && Storable(StateOf(b))
  {
    hide Born, Storable;
  }

  lemma {:induction false} EveryoneDescends(c: Suite, kr: Keyring, calls: seq<Call>)
    requires DecodeLaw(c) && NumberLaw(c) && RightSalts(c, kr, calls)
    ensures AllDescend(c, kr, calls)
  {
    hide Called, Born, DecodeLaw, NumberLaw, RightSalt, Descends;
    if calls != [] {
      var init := calls[..|calls| - 1];
      forall k | 0 <= k < |init| && init[k].ResumeHab? ensures RightSalt(c, kr, init[..k], init[k]) {
        assert init[..k] == calls[..k] && init[k] == calls[k];
      }
      EveryoneDescends(c, kr, init);
      forall name | name in Run(c, kr, calls).habs
        ensures Born(c, kr, calls, name).Some? && Descends(Born(c, kr, calls, name).value, Run(c, kr, calls).habs[name])
      {
        LastDescends(c, kr, calls, name);
      }
    }
  }

  /** A new registry over the same store, asked for the name with its salt. */
  function Reopened(name: string, salt: string): seq<Call> {
    [Restart, ResumeHab(name, salt)]
  }

  lemma AfterReopening(c: Suite, kr: Keyring, calls: seq<Call>, name: string, salt: string)
    requires Stored(c, kr, Run(c, kr, calls).tables, name, salt).Ok?
    ensures var again := Run(c, kr, calls + Reopened(name, salt));
      name in again.habs && again.habs[name] == Stored(c, kr, Run(c, kr, calls).tables, name, salt).value
  {
    var all := calls + Reopened(name, salt);
    assert all[..|all| - 1] == calls + [Restart] && (calls + [Restart])[..|calls + [Restart]| - 1] == calls;
    var closed := Run(c, kr, calls + [Restart]);
    hide Stored, Founded, Incepted, Rotated, Interacted;
    assert closed == Run(c, kr, calls).(habs := map[]);
    assert Run(c, kr, all) == Called(c, kr, closed, ResumeHab(name, salt));
  }

  /**
   * Whatever has been called, an identifier that is resumed from the store with its salt is the one
   * its inception made. That is the one that was registered exactly when it has not gone on since,
   * its number still being 0, and has not lost its next keys in a failed rotation.
   */
  lemma ResumedExactly(c: Suite, kr: Keyring, calls: seq<Call>, name: string)
    requires DecodeLaw(c) && NumberLaw(c) && RightSalts(c, kr, calls)
    requires name in Run(c, kr, calls).habs
    requires Born(c, kr, calls, name).Some? ==> Storable(StateOf(Born(c, kr, calls, name).value))
    ensures Born(c, kr, calls, name).Some?
    ensures var b, before := Born(c, kr, calls, name).value, Run(c, kr, calls).habs[name];
      var again := Run(c, kr, calls + Reopened(name, b.salt));
      && name in again.habs && again.habs[name] == b
      && (again.habs[name] == before <==> before.sn == 0 && |before.nextSigners| == |b.nextSigners|)
  {
    hide Run, Born, DecodeLaw, NumberLaw, RightSalts, Storable, Stored, Derived;
    EveryoneDescends(c, kr, calls);
    var b := Born(c, kr, calls, name).value;
    BornDerives(c, kr, calls, name);
    StoredIsBirth(c, kr, calls, name);
    AfterReopening(c, kr, calls, name, b.salt);
  }
}
