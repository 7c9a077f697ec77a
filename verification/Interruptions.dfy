/** What becomes of an identifier that is resumed from its record after it has gone on. */
module Interruptions {
  import opened Wrappers
  import opened Numerals
  import opened JsonValues
  import opened Primitives
  import opened Saids
  import opened Serders
  import opened WireValues
  import opened Thresholds
  import opened Events
  import opened KeyStates
  import opened Signatures
  import opened Kevers
  import opened Histories
  import opened Chains
  import opened Parsers
  import opened DirectMode
  import opened DirectRuns
  import opened Judges
  import opened JudgeRuns
  import opened EvidenceRuns
  import opened Habs
  import opened HabRuns
  import opened HabEvents
  import opened Simulation
  import opened Lifetimes
  import opened Deliveries

  // ---------- the event it then emits ----------

  lemma InteractionHeader(sad: Json, ixn: InteractionEvent, n: nat)
    requires InteractionOf(sad) == Ok(ixn) && ixn.sn == Format(n, 16) && n < U64 && Says(sad, "t", "ixn")
    ensures Header(sad) == Ok(ProcessResult(ixn.prefix, n, ixn.said, "ixn"))
  {
    InteractionFields(sad);
    SnRead(n);
    TextOfStr(sad, "t", "ixn");
    hide GetStr, InteractionOf, Says, Parse, Format;
  }

  lemma EntryParts(m: ParsedMessage)
    ensures EntryOf(m).raw == m.serder.raw && EntryOf(m).sad == m.serder.sad
    ensures EntryOf(m).sigs == ControllerSigsOf(m.attachments)
  {
    hide ControllerSigsOf;
  }

  /** An interaction of an identifier in this state arrives with its header, signed by all its keys. */
  lemma InteractionArrives(c: Suite, kr: Keyring, icp: Json, h: Habitat, st: KeyState, anchors: seq<Json>,
                           receipts: Couples) returns (m: ParsedMessage)
    requires Ideal(c, kr) && Derived(kr, h) && Agrees(c, h, st) && Draft(icp) && Says(icp, "t", "icp")
    requires h.prefix == SaidOf(c, FixVersionString(icp)) && Proper(c, kr, icp, h, Interact(anchors, true))
    requires GoodReceipts(c, receipts)
    ensures var e := Interacted(c, kr, h, anchors, true).1.value;
      && Arrived(c, e, receipts) == Ok(m)
      && Header(m.serder.sad) == Ok(ProcessResult(h.prefix, h.sn + 1, e.said, "ixn"))
    ensures AsKeys(c, KeysOf(h.signers)).Ok?
    ensures forall t :: 1 <= t <= |h.signers| ==>
      VerifySigs(c, m.serder.raw, ControllerSigsOf(m.attachments), KeysOf(h.signers), Simple(t)).Ok?
  {
    hide Interacted, Delivered, Arrived, Agrees, Derived, Ideal, FixVersionString, DeclaredSize, Draft,
         InteractionDraft, SaidOf, Separate, Says, Finish, AllAble, WellFormed, EntryOf, GoodReceipts, VerifySigs,
         KeysOf, InteractionOf, EventSaid, Header, AsKeys;
    InteractionFieldsOf(h, anchors);
    InteractionReady(c, kr, h, st, anchors, true);
    OtherTypeOtherSaid(c, icp, InteractionDraft(h, anchors), "ixn");
    IdealLaws(c, kr);
    AgreedTexts(c, h, st);
    var entry, v := InteractionEventRead(c, kr, h, anchors);
    ArrivesReceipted(c, kr, InteractionDraft(h, anchors), h.signers, receipts);
    var e := Finish(c, kr, InteractionDraft(h, anchors), h.signers).value;
    m := Arrived(c, e, receipts).value;
    EntryParts(m);
    InteractionHeader(entry.sad, InteractionOf(entry.sad).value, h.sn + 1);
    AsKeysOk(c, kr, h.signers);
  }

  lemma AgreedTexts(c: Suite, h: Habitat, st: KeyState)
    requires Agrees(c, h, st)
    ensures h.prefix != "" && Base64Text(h.prefix) && Base64Text(h.lastSaid)
    ensures st.keys == KeysOf(h.signers) && st.threshold.Simple? && 1 <= st.threshold.count <= |h.signers|
  {
  }

  // ---------- how it is judged ----------

  /** A judge that trusts an identifier meets another event at an accepted number, signed by the keys in force. */
  lemma RepeatedNumber(c: Suite, ins: seq<Input>, m: ParsedMessage, h: ProcessResult)
    requires Header(m.serder.sad) == Ok(h) && VerdictOf(JudgeRun(c, ins), h.prefix) == Trusted
    requires h.sn < |LogOf(c, PassedOn(c, ins), h.prefix)| && h.ilk == "ixn"
    requires SignedInForce(c, LogOf(c, PassedOn(c, ins), h.prefix), m)
    ensures VerdictOf(JudgeRun(c, ins + [Input(m, true)]), h.prefix) ==
      if h.said == SaidOfMessage(LogOf(c, PassedOn(c, ins), h.prefix)[h.sn]) then Trusted else Duplicitous
  {
    hide PassedOn, LogOf, Header, SaidOfMessage, SignedInForce, StandsAlone, Process, Challenged, Run, Judged;
    var all := ins + [Input(m, true)];
    assert all[..|all| - 1] == ins;
    FlaggedExactly(c, ins, h.prefix);
    JudgedExactly(c, ins, m, true, h);
  }

  /** The state held after a life, told from the log. */
  lemma HeldIsReplay(c: Suite, ins: seq<Input>, p: string)
    requires p in JudgeRun(c, ins).v.kevers
    ensures Replay(c, Entries(LogOf(c, PassedOn(c, ins), p))) == Ok(JudgeRun(c, ins).v.kevers[p])
  {
    hide JudgeRun, PassedOn, Run, LogOf, Replay, LastQuorate;
    JudgeIsVerifier(c, ins);
    LogInvariant(c, PassedOn(c, ins), p);
  }

  lemma SignedByTheSame(c: Suite, log: seq<ParsedMessage>, st: KeyState, h: Habitat, now: Habitat, m: ParsedMessage)
    requires Replay(c, Entries(log)) == Ok(st) && Agrees(c, now, st) && now.signers == h.signers
    requires AsKeys(c, KeysOf(h.signers)).Ok?
    requires forall t :: 1 <= t <= |h.signers| ==>
      VerifySigs(c, m.serder.raw, ControllerSigsOf(m.attachments), KeysOf(h.signers), Simple(t)).Ok?
    ensures SignedInForce(c, log, m)
  {
    hide Agrees, Replay, AsKeys, VerifySigs, KeysOf;
    AgreedTexts(c, now, st);
    assert st.threshold == Simple(st.threshold.count);
  }

  /**
   * An identifier that has interacted, but not rotated, and is then resumed as its inception made it,
   * makes another event of number 1. Judges that have followed it trust it still if that is the very
   * event it made before, and flag it if it is any other.
   */
  lemma ResumedIsJudged(c: Suite, kr: Keyring, name: string, cfg: InceptionConfig, commits: bool, cmds: seq<Command>,
                        start: seq<Input>, r0: Couples, receipts: seq<Couples>, anchors: seq<Json>, again: Couples)
    returns (msgs: seq<ParsedMessage>, m: ParsedMessage)
    requires Ideal(c, kr) && SaneInception(cfg) && cfg.count < U64 && Incepted(c, kr, name, cfg, commits).Ok?
    requires InceptionDraftOf(c, kr, cfg).Ok? && DeclaredSize(InceptionDraftOf(c, kr, cfg).value) < 0x100_0000
    requires var ((h, e), icp) := (Incepted(c, kr, name, cfg, commits).value, InceptionDraftOf(c, kr, cfg).value);
      && ProperRun(c, kr, icp, h, cmds) && Rotations(c, kr, h, cmds) == 0
      && Proper(c, kr, icp, h, Interact(anchors, true))
      && Quorate(c, e, r0, h) && QuorateLife(c, kr, h, cmds, receipts) && receipts != [] && GoodReceipts(c, again)
      && VerdictOf(JudgeRun(c, start), h.prefix) == Unseen
    ensures var (h, e) := Incepted(c, kr, name, cfg, commits).value;
      var events, x := [e] + Emitted(Outputs(c, kr, h, cmds)), Interacted(c, kr, h, anchors, true).1.value;
      && |events| == |msgs| == 1 + |receipts| && Arrivals(c, events, [r0] + receipts) == Ok(msgs)
      && Arrived(c, x, again) == Ok(m)
      && VerdictOf(JudgeRun(c, start + Inputs(msgs)), h.prefix) == Trusted
      && VerdictOf(JudgeRun(c, start + Inputs(msgs) + [Input(m, true)]), h.prefix) ==
           if x.said == SaidOfMessage(msgs[1]) then Trusted else Duplicitous
  {
    hide Ideal, SaneInception, Incepted, InceptionDraftOf, Agrees, ProperRun, QuorateLife, DeclaredSize, Emitted,
         Outputs, Quorate, Run, LogOf, Arrivals, JudgeRun, PassedOn, Interacted, Proper, Derived, Generations,
         Replay, SaidOfMessage, Header, SaidOf, FixVersionString, Draft, Says, VerifySigs, AsKeys, GoodReceipts,
         Arrived, Rotations, SignedInForce, KeysOf, Start, Incept, VerfersOf, Delivered, OnTerms;
    var (h, e) := Incepted(c, kr, name, cfg, commits).value;
    var icp := InceptionDraftOf(c, kr, cfg).value;
    msgs := LifeIsTrusted(c, kr, name, cfg, commits, cmds, start, r0, receipts);
    var ins := start + Inputs(msgs);
    DraftIsInception(c, kr, cfg);
    InceptionDerives(c, kr, name, cfg, commits);
    var entry := InceptionSimulated(c, kr, name, cfg, commits);
    m := InteractionArrives(c, kr, icp, h, Start(c, entry).value, anchors, again);
    StartsAtZero(c, kr, name, cfg, commits);
    KeysStayUnrotated(c, kr, h, cmds);
    HeldIsReplay(c, ins, h.prefix);
    SignedByTheSame(c, msgs, JudgeRun(c, ins).v.kevers[h.prefix], h, After(c, kr, h, cmds), m);
    RepeatedNumber(c, ins, m, Header(m.serder.sad).value);
  }

  lemma KeysStayUnrotated(c: Suite, kr: Keyring, h: Habitat, cmds: seq<Command>)
    requires Derived(kr, h) && Generations(h, 0) && Rotations(c, kr, h, cmds) == 0
    ensures After(c, kr, h, cmds).signers == h.signers
  {
    hide Derived, Generations, Perform;
    SourceStays(c, kr, h, cmds, 0);
    assert cmds[..0] == [];
  }
}
