/** Whole lives again: the bytes a `Hab` emits from inception on, replayed by a verifier. */
module Lifetimes {
  import opened Wrappers
  import opened Numerals
  import opened JsonValues
  import opened Primitives
  import opened Thresholds
  import opened Versions
  import opened Saids
  import opened Serders
  import opened WireValues
  import opened Events
  import opened KeyStates
  import opened Signatures
  import opened Kevers
  import opened Histories
  import opened Chains
  import opened Parsers
  import opened DirectMode
  import opened Habs
  import opened HabRuns
  import opened HabEvents
  import opened Simulation

  // ---------- no later event has the inception's SAID ----------

  /** Sizing and blanking touch no other field. */
  lemma BlankKeeps(sad: Json, key: string)
    requires Draft(sad) && key != "v" && key != "d" && key != "i"
    ensures FixVersionString(sad).Obj? && Get(Blank(FixVersionString(sad)), key) == Get(sad, key)
  {
    hide Get, Set, ToVersionString, Print;
    FixedDraft(sad);
    var fixed := FixVersionString(sad);
    GetFill(fixed, DUMMY, SelfAddressing(fixed), key);
    GetSet(sad, "v", Str(ToVersionString(Stamp(sad))), key);
  }

  lemma OtherTypeOtherSaid(c: Suite, icp: Json, sad: Json, t: string)
    requires Draft(icp) && Draft(sad) && Says(icp, "t", "icp") && Says(sad, "t", t) && t != "icp"
    requires Separate(c, FixVersionString(icp), FixVersionString(sad))
    ensures SaidOf(c, FixVersionString(icp)) != SaidOf(c, FixVersionString(sad))
  {
    BlankKeeps(icp, "t");
    BlankKeeps(sad, "t");
    hide Get, FixVersionString, Blank, Print, Draft;
    if SaidOf(c, FixVersionString(icp)) == SaidOf(c, FixVersionString(sad)) {
      PrintInjective(Blank(FixVersionString(icp)), Blank(FixVersionString(sad)));
    }
  }

  // ---------- proper use ----------

  /** Small enough for the version string, and not colliding with the inception. */
  ghost predicate Fits(c: Suite, icp: Json, sad: Json)
    requires icp.Obj? && sad.Obj?
  {
    DeclaredSize(sad) < 0x100_0000 && Separate(c, FixVersionString(icp), FixVersionString(sad))
  }

  /** A call that succeeds with thresholds its keys and backers can meet. */
  ghost predicate Proper(c: Suite, kr: Keyring, icp: Json, h: Habitat, cmd: Command)
    requires icp.Obj?
  {
    match cmd
    case Resume => true
    case Rotate(cfg, commits) =>
      && Rotated(c, kr, h, cfg, commits).1.Ok? && SaneRotation(h, cfg) && h.sn + 1 < U64
      && RotationDraftOf(c, kr, h, cfg).Ok? && Fits(c, icp, RotationDraftOf(c, kr, h, cfg).value)
    case Interact(anchors, commits) =>
      && Interacted(c, kr, h, anchors, commits).1.Ok? && h.sn + 1 < U64 && WellFormed(c, Arr(anchors), MAX_DEPTH - 1)
      && Fits(c, icp, InteractionDraft(h, anchors))
  }

  ghost predicate ProperRun(c: Suite, kr: Keyring, icp: Json, h: Habitat, cmds: seq<Command>)
    requires icp.Obj?
  {
    cmds == [] ||
    (ProperRun(c, kr, icp, h, cmds[..|cmds| - 1]) &&
     Proper(c, kr, icp, After(c, kr, h, cmds[..|cmds| - 1]), cmds[|cmds| - 1]))
  }

  /** The events among the results. */
  function Emitted(outputs: seq<Result<SignedEvent>>): seq<SignedEvent> {
    if outputs == [] then []
    else
      var init := Emitted(outputs[..|outputs| - 1]);
      match outputs[|outputs| - 1]
      case Ok(e) => init + [e]
      case Err(_) => init
  }

  /** Parse each event's bytes. */
  function DeliveredAll(c: Suite, es: seq<SignedEvent>): Result<seq<Entry>> {
    if es == [] then Ok([])
    else
      var init :- DeliveredAll(c, es[..|es| - 1]);
      var last :- Delivered(c, es[|es| - 1]);
      Ok(init + [last])
  }

  /** A verifier that replays these bytes ends in the state the identifier is in, on these terms. */
  ghost predicate Follows(c: Suite, kr: Keyring, es: seq<SignedEvent>, h: Habitat, t: Terms) {
    var all := DeliveredAll(c, es);
    && all.Ok? && Replay(c, all.value).Ok?
    && Agrees(c, h, Replay(c, all.value).value) && OnTerms(Replay(c, all.value).value, t)
  }

  function TermsAfter(t: Terms, cmd: Command): Terms {
    if cmd.Rotate? then RotationTerms(cmd.cfg) else t
  }

  /** The terms of the last rotation, or of the inception. */
  function LastTerms(first: Terms, cmds: seq<Command>): Terms {
    if cmds == [] then first else TermsAfter(LastTerms(first, cmds[..|cmds| - 1]), cmds[|cmds| - 1])
  }

  // ---------- one step ----------

  lemma ReplayAppend(c: Suite, es: seq<Entry>, st: KeyState, e: Entry)
    requires Replay(c, es) == Ok(st)
    ensures Replay(c, es + [e]) == Advance(c, st, e)
  {
    assert (es + [e])[..|es + [e]| - 1] == es;
  }

  lemma FollowsAppend(c: Suite, kr: Keyring, es: seq<SignedEvent>, h: Habitat, t: Terms, e: SignedEvent,
                      entry: Entry, h2: Habitat, t2: Terms)
    requires Follows(c, kr, es, h, t) && Delivered(c, e) == Ok(entry)
    requires var st := Replay(c, DeliveredAll(c, es).value).value;
      Advance(c, st, entry).Ok? && Agrees(c, h2, Advance(c, st, entry).value) &&
      OnTerms(Advance(c, st, entry).value, t2)
    ensures Follows(c, kr, es + [e], h2, t2)
  {
    hide Replay, Advance, Agrees, OnTerms, Delivered;
    assert (es + [e])[..|es + [e]| - 1] == es;
    ReplayAppend(c, DeliveredAll(c, es).value, Replay(c, DeliveredAll(c, es).value).value, entry);
  }

  lemma RotateFollows(c: Suite, kr: Keyring, icp: Json, es: seq<SignedEvent>, h: Habitat, t: Terms,
                      cfg: RotationConfig, commits: bool)
    requires Ideal(c, kr) && Derived(kr, h) && Draft(icp) && Says(icp, "t", "icp")
    requires h.prefix == SaidOf(c, FixVersionString(icp))
    requires Follows(c, kr, es, h, t) && Proper(c, kr, icp, h, Rotate(cfg, commits))
    ensures var (h2, r) := Rotated(c, kr, h, cfg, commits);
      r.Ok? && Follows(c, kr, es + [r.value], h2, RotationTerms(cfg)) && h2.prefix == h.prefix
  {
    hide Rotated, Delivered, Advance, NextState, Replay, Agrees, OnTerms, Derived, Ideal, FixVersionString,
         DeclaredSize, SaneRotation, Draft, RotationDraft, SaidOf, DeliveredAll, Separate, Says, Derive;
    var next := Derive(kr, h.salt, h.code, h.transferable, h.keyGen + 1, cfg.nextCount).value;
    var sad := RotationDraftOf(c, kr, h, cfg).value;
    RotationHead(h, cfg, KeysOf(h.nextSigners), DigestsOf(c, next));
    IsDraft(h, cfg, KeysOf(h.nextSigners), DigestsOf(c, next));
    OtherTypeOtherSaid(c, icp, sad, "rot");
    var entry := RotationSimulated(c, kr, h, Replay(c, DeliveredAll(c, es).value).value, cfg, commits);
    var (h2, r) := Rotated(c, kr, h, cfg, commits);
    FollowsAppend(c, kr, es, h, t, r.value, entry, h2, RotationTerms(cfg));
    KeepsPrefix(c, kr, h, Rotate(cfg, commits));
  }

  lemma IsDraft(h: Habitat, cfg: RotationConfig, keys: seq<string>, digests: seq<string>)
    ensures Draft(RotationDraft(h, cfg, keys, digests))
  {
    hide Draft;
  }

  lemma KeepsPrefix(c: Suite, kr: Keyring, h: Habitat, cmd: Command)
    requires cmd.Resume? ==> Derived(kr, h)
    ensures Perform(c, kr, h, cmd).prefix == h.prefix
  {
    hide RotationOutcome, Finish, Derive, InteractionDraft;
  }

  lemma InteractFollows(c: Suite, kr: Keyring, icp: Json, es: seq<SignedEvent>, h: Habitat, t: Terms,
                        anchors: seq<Json>, commits: bool)
    requires Ideal(c, kr) && Derived(kr, h) && Draft(icp) && Says(icp, "t", "icp")
    requires h.prefix == SaidOf(c, FixVersionString(icp))
    requires Follows(c, kr, es, h, t) && Proper(c, kr, icp, h, Interact(anchors, commits))
    ensures var (h2, r) := Interacted(c, kr, h, anchors, commits);
      r.Ok? && Follows(c, kr, es + [r.value], h2, t) && h2.prefix == h.prefix
  {
    hide Interacted, Delivered, Advance, NextState, Replay, Agrees, OnTerms, Derived, Ideal, FixVersionString,
         DeclaredSize, SaidOf, DeliveredAll, Separate, Says, Draft;
    InteractionFieldsOf(h, anchors);
    OtherTypeOtherSaid(c, icp, InteractionDraft(h, anchors), "ixn");
    var entry := InteractionSimulated(c, kr, h, Replay(c, DeliveredAll(c, es).value).value, anchors, commits);
    var (h2, r) := Interacted(c, kr, h, anchors, commits);
    FollowsAppend(c, kr, es, h, t, r.value, entry, h2, t);
    KeepsPrefix(c, kr, h, Interact(anchors, commits));
  }

  // ---------- the whole life ----------

  lemma EmittedMore(outputs: seq<Result<SignedEvent>>, e: SignedEvent)
    ensures Emitted(outputs + [Ok(e)]) == Emitted(outputs) + [e]
  {
    assert (outputs + [Ok(e)])[..|outputs + [Ok(e)]| - 1] == outputs;
  }

  lemma {:induction false} RunFollows(c: Suite, kr: Keyring, icp: Json, first: SignedEvent, h: Habitat,
                                      t: Terms, cmds: seq<Command>)
    requires Ideal(c, kr) && Derived(kr, h) && Generations(h, 0)
    requires Draft(icp) && Says(icp, "t", "icp") && h.prefix == SaidOf(c, FixVersionString(icp))
    requires Follows(c, kr, [first], h, t) && ProperRun(c, kr, icp, h, cmds)
    ensures Follows(c, kr, [first] + Emitted(Outputs(c, kr, h, cmds)), After(c, kr, h, cmds), LastTerms(t, cmds))
    ensures After(c, kr, h, cmds).prefix == h.prefix
    decreases |cmds|
  {
    hide Ideal, Derived, Generations, Draft, Follows, Rotated, Interacted, Proper, FixVersionString, SaidOf, Resumed,
         Says;
    if cmds == [] {
      assert Emitted([]) == [] && [first] + [] == [first];
    } else {
      var init, cmd := cmds[..|cmds| - 1], cmds[|cmds| - 1];
      RunFollows(c, kr, icp, first, h, t, init);
      GenerationLaw(c, kr, h, init);
      var now, outputs := After(c, kr, h, init), Outputs(c, kr, h, init);
      var es := [first] + Emitted(outputs);
      match cmd {
        case Resume =>
          ResumeIsIdentity(kr, now);
          assert outputs + [] == outputs;
        case Rotate(cfg, commits) =>
          RotateFollows(c, kr, icp, es, now, LastTerms(t, init), cfg, commits);
          var e := Rotated(c, kr, now, cfg, commits).1.value;
          EmittedMore(outputs, e);
          assert es + [e] == [first] + (Emitted(outputs) + [e]);
        case Interact(anchors, commits) =>
          InteractFollows(c, kr, icp, es, now, LastTerms(t, init), anchors, commits);
          var e := Interacted(c, kr, now, anchors, commits).1.value;
          EmittedMore(outputs, e);
          assert es + [e] == [first] + (Emitted(outputs) + [e]);
      }
    }
  }

  lemma FirstFollows(c: Suite, kr: Keyring, name: string, cfg: InceptionConfig, commits: bool)
    requires Ideal(c, kr) && SaneInception(cfg) && cfg.count < U64 && Incepted(c, kr, name, cfg, commits).Ok?
    requires InceptionDraftOf(c, kr, cfg).Ok? && DeclaredSize(InceptionDraftOf(c, kr, cfg).value) < 0x100_0000
    ensures var (h, e) := Incepted(c, kr, name, cfg, commits).value;
      && Follows(c, kr, [e], h, InceptionTerms(cfg))
      && h.prefix == SaidOf(c, FixVersionString(InceptionDraftOf(c, kr, cfg).value))
  {
    hide Ideal, SaneInception, Incepted, InceptionDraftOf, Agrees, OnTerms, Start, Incept, VerfersOf, Delivered,
         DeclaredSize, FixVersionString, SaidOf;
    var entry := InceptionSimulated(c, kr, name, cfg, commits);
    var (h, e) := Incepted(c, kr, name, cfg, commits).value;
    assert [e][..0] == [] && DeliveredAll(c, []) == Ok([]);
    assert [] + [entry] == [entry];
    assert DeliveredAll(c, [e]) == Ok([entry]);
  }

  lemma DraftIsInception(c: Suite, kr: Keyring, cfg: InceptionConfig)
    requires InceptionDraftOf(c, kr, cfg).Ok?
    ensures Draft(InceptionDraftOf(c, kr, cfg).value) && Says(InceptionDraftOf(c, kr, cfg).value, "t", "icp")
  {
    hide Derive, Draft, InceptionDraft, Says;
    var salt := SaltOf(kr, cfg.salt).value;
    var signers := Derive(kr, salt, cfg.code, cfg.transferable, 0, cfg.count).value;
    var next := Derive(kr, salt, cfg.code, cfg.transferable, 1, cfg.nextCount).value;
    InceptionHead(cfg, KeysOf(signers), DigestsOf(c, next));
  }

  /**
   * Producer and verifier: for every inception and every run of successful rotations, interactions
   * and resumptions with attainable thresholds and messages under 2^24 bytes, the emitted bytes
   * parse to events that are all accepted in order, and the verifier's state agrees with the
   * identifier's on prefix, sequence number, last SAID, keys, next-key digests and backers, with the
   * thresholds and configuration that the last rotation, or else the inception, asked for.
   */
  lemma EverythingEmittedIsAccepted(c: Suite, kr: Keyring, name: string, cfg: InceptionConfig, commits: bool,
                                    cmds: seq<Command>)
    requires Ideal(c, kr) && SaneInception(cfg) && cfg.count < U64 && Incepted(c, kr, name, cfg, commits).Ok?
    requires InceptionDraftOf(c, kr, cfg).Ok? && DeclaredSize(InceptionDraftOf(c, kr, cfg).value) < 0x100_0000
    requires ProperRun(c, kr, InceptionDraftOf(c, kr, cfg).value, Incepted(c, kr, name, cfg, commits).value.0, cmds)
    ensures var (h, e) := Incepted(c, kr, name, cfg, commits).value;
      var bytes := [e] + Emitted(Outputs(c, kr, h, cmds));
      && DeliveredAll(c, bytes).Ok? && Replay(c, DeliveredAll(c, bytes).value).Ok?
      && Agrees(c, After(c, kr, h, cmds), Replay(c, DeliveredAll(c, bytes).value).value)
      && OnTerms(Replay(c, DeliveredAll(c, bytes).value).value, LastTerms(InceptionTerms(cfg), cmds))
  {
    hide Ideal, SaneInception, Incepted, InceptionDraftOf, Agrees, OnTerms, LastTerms, Replay, DeliveredAll, ProperRun,
         DeclaredSize, FixVersionString, SaidOf, Emitted, Outputs, After, Draft, Says, Derived, Generations;
    FirstFollows(c, kr, name, cfg, commits);
    DraftIsInception(c, kr, cfg);
    InceptionDerives(c, kr, name, cfg, commits);
    var (h, e) := Incepted(c, kr, name, cfg, commits).value;
    RunFollows(c, kr, InceptionDraftOf(c, kr, cfg).value, e, h, InceptionTerms(cfg), cmds);
  }

  // ---------- what a lost key list means ----------

  /** An event without signatures is never accepted, as a first event or a later one. */
  lemma UnsignedIsRefused(c: Suite, st: KeyState, e: Entry, badSn: Error)
    requires e.sigs == [] && st.threshold.Valid()
    ensures NextState(c, st, e, badSn).Err? && Start(c, e).Err? && Advance(c, st, e).Err?
  {
    hide CheckNext, CheckRotation, CheckInteraction, CheckInception, ApplyRotation, ApplyInteraction,
         ApplyDelegatedRotation, ValidatePrefix, VerifySigs, EventKeys, Ilk, FromInception, FromDelegatedInception;
    UnsignedRotation(c, e);
    UnsignedInteraction(c, st, e);
    UnsignedInception(c, e, "icp");
    UnsignedInception(c, e, "dip");
  }

  lemma UnsignedRotation(c: Suite, e: Entry)
    requires e.sigs == []
    ensures CheckRotation(c, e).Err?
  {
    hide CheckRotation, RotationOf, VerifySigs;
    if CheckRotation(c, e).Ok? {
      CheckedRotationFacts(c, e);
      UnsignedFails(c, e, CheckRotation(c, e).value.keys, CheckRotation(c, e).value.threshold);
    }
  }

  lemma UnsignedInteraction(c: Suite, st: KeyState, e: Entry)
    requires e.sigs == [] && st.threshold.Valid()
    ensures CheckInteraction(c, st, e).Err?
  {
    hide CheckInteraction, InteractionOf, VerifySigs;
    if CheckInteraction(c, st, e).Ok? {
      CheckedInteractionFacts(c, st, e);
      UnsignedFails(c, e, st.keys, st.threshold);
    }
  }

  lemma UnsignedInception(c: Suite, e: Entry, ilk: string)
    requires e.sigs == []
    ensures CheckInception(c, e, ilk, EventKeys(e.sad)).Err?
  {
    hide CheckInception, EventKeys, VerifySigs, InceptionOf, EventSaid, VerifySaid;
    if CheckInception(c, e, ilk, EventKeys(e.sad)).Ok? {
      CheckedInceptionFacts(c, e, ilk, EventKeys(e.sad));
      InceptionThresholdValid(e.sad);
      UnsignedFails(c, e, EventKeys(e.sad), InceptionOf(e.sad).value.threshold);
    }
  }

  lemma InceptionThresholdValid(sad: Json)
    requires InceptionOf(sad).Ok?
    ensures InceptionOf(sad).value.threshold.Valid()
  {
  }

  lemma UnsignedFails(c: Suite, e: Entry, keys: seq<string>, t: Threshold)
    requires e.sigs == [] && t.Valid()
    ensures VerifySigs(c, e.raw, e.sigs, keys, t).Err?
  {
    if VerifySigs(c, e.raw, e.sigs, keys, t).Ok? {
      var s := AcceptedMeansSigned(c, e.raw, e.sigs, keys, t);
    }
  }

  /**
   * An identifier that has lost its next keys can still be told to rotate, but what it then emits
   * is refused by every verifier in every state.
   */
  lemma LostKeysNeverRotate(c: Suite, kr: Keyring, h: Habitat, cfg: RotationConfig, commits: bool, st: KeyState)
    returns (entry: Entry)
    requires DigestLaw(c) && TextLaw(c) && DecodeLaw(c) && h.nextSigners == [] && st.threshold.Valid()
    requires Rotated(c, kr, h, cfg, commits).1.Ok?
    requires RotationDraftOf(c, kr, h, cfg).Ok? && DeclaredSize(RotationDraftOf(c, kr, h, cfg).value) < 0x100_0000
    requires WellFormed(c, RotationDraftOf(c, kr, h, cfg).value, MAX_DEPTH)
    ensures Delivered(c, Rotated(c, kr, h, cfg, commits).1.value) == Ok(entry)
    ensures Advance(c, st, entry).Err?
  {
    hide DigestLaw, TextLaw, DecodeLaw, Finish, DeclaredSize, ParseNext, Build, RotationDraft, Advance, Derive,
         ControllerSigsOf, WellFormed, Draft, Agrees;
    var next := Derive(kr, h.salt, h.code, h.transferable, h.keyGen + 1, cfg.nextCount).value;
    var sad := RotationDraft(h, cfg, KeysOf([]), DigestsOf(c, next));
    IsDraft(h, cfg, KeysOf([]), DigestsOf(c, next));
    var serder, sigs := BytesRead(c, kr, sad, []);
    SigsOfOne(serder, sigs);
    entry := Entry(serder.raw, serder.sad, sigs, JsonKind);
    UnsignedIsRefused(c, st, entry, Validation);
  }
}
