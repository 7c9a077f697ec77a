/** Everything a controller emits, receipted and delivered, ends up in the receiver's log; a judge trusts it. */
module Deliveries {
  import opened Wrappers
  import opened Numerals
  import opened JsonValues
  import opened Primitives
  import opened Versions
  import opened Saids
  import opened Serders
  import opened WireValues
  import opened Events
  import opened KeyStates
  import opened Signatures
  import opened Kevers
  import opened Histories
  import opened Chains
  import opened Acceptance
  import opened Counters
  import opened Parsers
  import opened Composers
  import opened Stores
  import opened DirectMode
  import opened DirectRuns
  import opened DirectAcceptance
  import opened Judges
  import opened JudgeRuns
  import opened Habs
  import opened HabRuns
  import opened HabEvents
  import opened Simulation
  import opened Lifetimes

  // ---------- on the wire ----------

  /** Witness prefixes and signatures, in qb64. */
  type Couples = seq<(string, string)>

  predicate GoodReceipts(c: Suite, receipts: Couples) {
    |receipts| < 4096 && forall w :: w in receipts ==> GoodPair(c, w) && c.matterRaw(w.1).Some?
  }

  function ReceiptGroups(receipts: Couples): seq<Group> {
    if receipts == [] then [] else [ReceiptGroup(receipts)]
  }

  /** The bytes of an event with its receipts behind it. */
  function Wire(e: SignedEvent, receipts: Couples): Result<string> {
    var text :- GroupsText(ReceiptGroups(receipts), V1);
    Ok(e.composed + text)
  }

  /** What a receiver parses from them, if it consumes them all. */
  function Arrived(c: Suite, e: SignedEvent, receipts: Couples): Result<ParsedMessage> {
    var text :- Wire(e, receipts);
    var next :- ParseNext(c, text, true);
    if next.1 != |text| then Err(ParseError) else Ok(next.0)
  }

  lemma SigsThenReceipts(c: Suite, serder: Serder, sigs: seq<Siger>, receipts: Couples)
    requires GoodReceipts(c, receipts)
    ensures GoodGroups(c, ReceiptGroups(receipts), V1)
    ensures var m := ParsedMessage(serder, [ControllerSigs(sigs)] + AttachmentsOf(c, ReceiptGroups(receipts), V1));
      && EntryOf(m) == Entry(serder.raw, serder.sad, sigs, JsonKind)
      && ReceiptsOf(m.attachments) == Decoded(c, receipts) && !HasUnknown(m.attachments)
  {
    hide GoodPair;
    var atts := [ControllerSigs(sigs)] + AttachmentsOf(c, ReceiptGroups(receipts), V1);
    if receipts == [] {
      assert Decoded(c, receipts) == [];
      assert atts == [ControllerSigs(sigs)];
      OneGroupOfSigs(sigs);
    } else {
      assert atts == [ControllerSigs(sigs), ReceiptCouples(Decoded(c, receipts))];
      SigsAndReceiptsRead(sigs, Decoded(c, receipts));
    }
  }

  lemma SigsAndReceiptsRead(sigs: seq<Siger>, receipts: Couples)
    ensures var atts := [ControllerSigs(sigs), ReceiptCouples(receipts)];
      ControllerSigsOf(atts) == sigs && ReceiptsOf(atts) == receipts && !HasUnknown(atts)
  {
    var last := [ReceiptCouples(receipts)];
    var atts := [ControllerSigs(sigs), ReceiptCouples(receipts)];
    assert atts[1..] == last && last[1..] == [];
    assert ControllerSigsOf(last[1..]) == [] && ReceiptsOf(last[1..]) == [];
    assert receipts + [] == receipts;
    assert ControllerSigsOf(last) == [] && ReceiptsOf(last) == receipts;
    assert sigs + [] == sigs;
  }

  /** A finished event arrives with its receipts, whatever they are worth. */
  lemma ArrivesReceipted(c: Suite, kr: Keyring, sad: Json, signers: seq<Signer>, receipts: Couples)
    requires DigestLaw(c) && TextLaw(c) && DecodeLaw(c) && AllAble(c, kr, signers) && WellFormed(c, sad, MAX_DEPTH)
    requires Draft(sad) && DeclaredSize(sad) < 0x100_0000 && Finish(c, kr, sad, signers).Ok?
    requires GoodReceipts(c, receipts)
    ensures var e := Finish(c, kr, sad, signers).value;
      && Arrived(c, e, receipts).Ok? && Delivered(c, e) == Ok(EntryOf(Arrived(c, e, receipts).value))
      && var m := Arrived(c, e, receipts).value;
         && ReceiptsOf(m.attachments) == Decoded(c, receipts) && !HasUnknown(m.attachments) && m.serder.raw == e.raw
  {
    hide DigestLaw, TextLaw, DecodeLaw, AllAble, WellFormed, DeclaredSize, Build, SignFirst, Assemble, ParseNext,
         GoodReceipts, GoodGroups, GroupsText, GoodSiger, EntryOf, ReceiptsOf, HasUnknown, ReceiptGroups;
    var e := Finish(c, kr, sad, signers).value;
    var serder, sigs := BytesRead(c, kr, sad, signers);
    SignaturesTravel(c, kr, signers, serder.raw);
    SigsThenReceipts(c, serder, sigs, receipts);
    SigsOfOne(serder, sigs);
    ComposedReadWith(c, sad, serder, e.said, sigs, e, ReceiptGroups(receipts));
  }

  // ---------- one message ----------

  lemma CarriedHeader(c: Suite, st: KeyState, m: ParsedMessage, st2: KeyState)
    requires CarriesOn(c, st, EntryOf(m), st2)
    ensures Header(m.serder.sad) == Ok(ProcessResult(st.prefix, st.sn + 1, st2.lastDigest, Ilk(EntryOf(m))))
    ensures st2.prefix == st.prefix
  {
    hide EventSaid, VerifySigs, GetStr, StrArrField, ThresholdField, ArrField, AsKeys, Committed, UpdateBackers, SnOf;
  }

  lemma OpenedHeader(c: Suite, m: ParsedMessage, st: KeyState)
    requires Opens(c, EntryOf(m), st)
    ensures Header(m.serder.sad) == Ok(ProcessResult(st.prefix, 0, st.lastDigest, Ilk(EntryOf(m))))
  {
    hide EventSaid, VerifySigs, GetStr, StrArrField, ThresholdField, ArrField, SnOf, Derives;
  }

  /** The message that comes next for `p` in this run, and the state it leads to. */
  ghost predicate NextFor(c: Suite, ins: seq<Input>, m: ParsedMessage, p: string, st: KeyState) {
    Header(m.serder.sad).Ok? &&
    var h := Header(m.serder.sad).value;
    h.prefix == p && h.sn == |LogOf(c, ins, p)| && Accepts(c, Run(c, ins).kevers, m, h, st)
  }

  /** A later event that the held state is carried on by, with its quorum of receipts, comes next. */
  lemma LaterIsNext(c: Suite, ins: seq<Input>, m: ParsedMessage, p: string, st2: KeyState)
    requires p in Run(c, ins).kevers && NextState(c, Run(c, ins).kevers[p], EntryOf(m), Validation) == Ok(st2)
    requires VerifyReceipts(c, m.serder.raw, ReceiptsOf(m.attachments), st2.backers, st2.backerThreshold).Ok?
    requires !HasUnknown(m.attachments)
    ensures NextFor(c, ins, m, p, st2)
  {
    hide Run, LogOf, Replay, LastQuorate, NextState, CarriesOn, VerifyReceipts, HasUnknown, Ilk, EntryOf, ReceiptsOf,
         Header;
    var st := Run(c, ins).kevers[p];
    HeldNumber(c, ins, p);
    NextStateExactly(c, st, EntryOf(m), Validation, st2);
    CarriedHeader(c, st, m, st2);
    CarriedType(c, st, EntryOf(m), st2);
    assert Accepts(c, Run(c, ins).kevers, m, ProcessResult(p, st.sn + 1, st2.lastDigest, Ilk(EntryOf(m))), st2);
  }

  /** The number of the held state counts the events after the first. */
  lemma HeldNumber(c: Suite, ins: seq<Input>, p: string)
    requires p in Run(c, ins).kevers
    ensures Run(c, ins).kevers[p].prefix == p && Run(c, ins).kevers[p].sn + 1 == |LogOf(c, ins, p)|
  {
    hide Run, LogOf, Replay, LastQuorate, VerifySigs, Installs, Committed;
    LogInvariant(c, ins, p);
    LastKeysInForce(c, Entries(LogOf(c, ins, p)));
  }

  lemma FirstIsNext(c: Suite, ins: seq<Input>, m: ParsedMessage, keys: seq<string>, st: KeyState)
    requires Incept(c, EntryOf(m), keys) == Ok(st) && AsKeys(c, keys).Ok? && st.prefix !in Run(c, ins).kevers
    requires VerifyReceipts(c, m.serder.raw, ReceiptsOf(m.attachments), st.backers, st.backerThreshold).Ok?
    requires !HasUnknown(m.attachments)
    ensures NextFor(c, ins, m, st.prefix, st)
  {
    hide Run, LogOf, Replay, LastQuorate, Incept, Opens, VerifyReceipts, HasUnknown, Ilk, EntryOf, ReceiptsOf, Header,
         AsKeys;
    LogInvariant(c, ins, st.prefix);
    InceptExactly(c, EntryOf(m), keys, st);
    OpenedHeader(c, m, st);
    assert Accepts(c, Run(c, ins).kevers, m, ProcessResult(st.prefix, 0, st.lastDigest, "icp"), st);
  }

  /** Direct mode takes what comes next: it joins the log, and its state is held. */
  lemma NextIsTaken(c: Suite, ins: seq<Input>, m: ParsedMessage, p: string, st: KeyState)
    requires NextFor(c, ins, m, p, st)
    ensures var more := ins + [Input(m, true)];
      && LogOf(c, more, p) == LogOf(c, ins, p) + [m] && Run(c, more).kevers == Run(c, ins).kevers[p := st]
  {
    hide Run, LogOf, Accepts, Process, Assess, EventStored, SigBytes;
    var h := Header(m.serder.sad).value;
    ProcessTakes(c, Run(c, ins), m, h, st);
    AssessExactly(c, Run(c, ins).kevers, m, h, st);
    OneMoreInput(c, ins, Input(m, true), p);
  }

  lemma OneMoreInput(c: Suite, ins: seq<Input>, i: Input, p: string)
    ensures Run(c, ins + [i]) == Process(c, Run(c, ins), i.m, i.commits).0
    ensures LogOf(c, ins + [i], p) == LogOf(c, ins, p) + if DirectRuns.Extends(c, Run(c, ins), i, p) then [i.m] else []
  {
    assert (ins + [i])[..|ins|] == ins;
  }

  /** A judge passes it on, unless the identifier is already flagged. */
  lemma NextIsPassedOn(c: Suite, ins: seq<Input>, m: ParsedMessage, p: string, st: KeyState)
    requires NextFor(c, PassedOn(c, ins), m, p, st) && p !in JudgeRun(c, ins).duplicitous
    ensures PassedOn(c, ins + [Input(m, true)]) == PassedOn(c, ins) + [Input(m, true)]
    ensures JudgeRun(c, ins + [Input(m, true)]).duplicitous == JudgeRun(c, ins).duplicitous
  {
    hide Run, LogOf, Accepts, Process, JudgeRun, PassedOn, Header, SnKey, FirstSeen, Judged, RouteOf;
    var passed := PassedOn(c, ins);
    var h := Header(m.serder.sad).value;
    JudgeIsVerifier(c, ins);
    HeaderNames(m, h);
    if FirstSeen(Run(c, passed).tables, p, h.sn).Some? {
      FirstSeenEvent(c, passed, p, h.sn);
    }
    PassOnUnseen(JudgeRun(c, ins), m, h);
    OneMoreJudged(c, ins, Input(m, true));
  }

  lemma PassOnUnseen(s: JudgeState, m: ParsedMessage, h: ProcessResult)
    requires Header(m.serder.sad) == Ok(h) && h.prefix !in s.duplicitous
    requires FirstSeen(s.v.tables, h.prefix, h.sn) == None
    ensures RouteOf(s, m).PassOn?
  {
    hide Header, FirstSeen;
  }

  lemma OneMoreJudged(c: Suite, ins: seq<Input>, i: Input)
    requires RouteOf(JudgeRun(c, ins), i.m).PassOn?
    ensures PassedOn(c, ins + [i]) == PassedOn(c, ins) + [i]
    ensures JudgeRun(c, ins + [i]).duplicitous == JudgeRun(c, ins).duplicitous
  {
    hide RouteOf, Process;
    assert (ins + [i])[..|ins|] == ins;
  }

  // ---------- one call ----------

  /** Receipts of this event that make up the quorum of the backers that `h` then has. */
  ghost predicate Quorate(c: Suite, e: SignedEvent, receipts: Couples, h: Habitat) {
    && GoodReceipts(c, receipts)
    && VerifyReceipts(c, e.raw, Decoded(c, receipts), h.backers, h.backerThreshold).Ok?
  }

  /** After these inputs the receiver has exactly these messages of `h`, and agrees with it on these terms. */
  ghost predicate InStep(c: Suite, ins: seq<Input>, msgs: seq<ParsedMessage>, h: Habitat, t: Terms) {
    && LogOf(c, ins, h.prefix) == msgs && h.prefix in Run(c, ins).kevers
    && Agrees(c, h, Run(c, ins).kevers[h.prefix]) && OnTerms(Run(c, ins).kevers[h.prefix], t)
  }

  lemma AgreedBackers(c: Suite, h: Habitat, st: KeyState)
    requires Agrees(c, h, st)
    ensures st.prefix == h.prefix && st.backers == h.backers && st.backerThreshold == h.backerThreshold
  {
  }

  lemma NextInStep(c: Suite, ins: seq<Input>, msgs: seq<ParsedMessage>, h: Habitat, m: ParsedMessage, h2: Habitat,
                   st2: KeyState, t2: Terms)
    requires LogOf(c, ins, h.prefix) == msgs && h2.prefix == h.prefix
    requires NextFor(c, ins, m, h.prefix, st2) && Agrees(c, h2, st2) && OnTerms(st2, t2)
    ensures InStep(c, ins + [Input(m, true)], msgs + [m], h2, t2)
  {
    hide Run, LogOf, Agrees, OnTerms, NextFor;
    NextIsTaken(c, ins, m, h.prefix, st2);
  }

  /** The rotation's draft can be finished and read. */
  lemma RotationReady(c: Suite, kr: Keyring, h: Habitat, st: KeyState, cfg: RotationConfig, commits: bool)
    requires Ideal(c, kr) && Derived(kr, h) && Agrees(c, h, st) && SaneRotation(h, cfg)
    requires Rotated(c, kr, h, cfg, commits).1.Ok? && RotationDraftOf(c, kr, h, cfg).Ok?
    ensures var sad := RotationDraftOf(c, kr, h, cfg).value;
      && Draft(sad) && WellFormed(c, sad, MAX_DEPTH) && AllAble(c, kr, h.nextSigners)
      && Finish(c, kr, sad, h.nextSigners) == Rotated(c, kr, h, cfg, commits).1
    ensures Rotated(c, kr, h, cfg, commits).0.prefix == h.prefix
  {
    hide Finish, RotationDraft, Derive, KeysOf, DigestsOf, WellFormed, AllAble, DigestLaw, TextLaw, DecodeLaw,
         KeyringLaw, Texts, Utf8, Base64Text, UpdateBackers, Draft;
    var next := Derive(kr, h.salt, h.code, h.transferable, h.keyGen + 1, cfg.nextCount).value;
    DerivedAble(c, kr, h.salt, h.code, h.transferable, h.nextGen, |h.nextSigners|);
    KeysAreTexts(c, kr, h.nextSigners);
    DigestsAreTexts(c, next);
    Base64IsUtf8(h.prefix);
    Base64IsUtf8(h.lastSaid);
    RotationWellFormed(c, h, cfg, KeysOf(h.nextSigners), DigestsOf(c, next));
    IsDraft(h, cfg, KeysOf(h.nextSigners), DigestsOf(c, next));
  }

  lemma InteractionReady(c: Suite, kr: Keyring, h: Habitat, st: KeyState, anchors: seq<Json>, commits: bool)
    requires Ideal(c, kr) && Derived(kr, h) && Agrees(c, h, st) && WellFormed(c, Arr(anchors), MAX_DEPTH - 1)
    requires Interacted(c, kr, h, anchors, commits).1.Ok?
    ensures var sad := InteractionDraft(h, anchors);
      && Draft(sad) && WellFormed(c, sad, MAX_DEPTH) && AllAble(c, kr, h.signers)
      && Finish(c, kr, sad, h.signers) == Interacted(c, kr, h, anchors, commits).1
    ensures Interacted(c, kr, h, anchors, commits).0.prefix == h.prefix
  {
    hide Finish, InteractionDraft, Derive, KeysOf, DigestsOf, WellFormed, AllAble, DigestLaw, TextLaw, DecodeLaw,
         KeyringLaw, Utf8, Base64Text, Draft;
    DerivedAble(c, kr, h.salt, h.code, h.transferable, h.signerGen, |h.signers|);
    Base64IsUtf8(h.prefix);
    Base64IsUtf8(h.lastSaid);
    InteractionWellFormed(c, h, anchors);
  }

  /** A rotation that is receipted and delivered comes next, and keeps the receiver in step. */
  lemma RotationTaken(c: Suite, kr: Keyring, icp: Json, ins: seq<Input>, msgs: seq<ParsedMessage>, h: Habitat,
                      t: Terms, cfg: RotationConfig, commits: bool, receipts: Couples)
    returns (m: ParsedMessage, st2: KeyState)
    requires Ideal(c, kr) && Derived(kr, h) && Draft(icp) && Says(icp, "t", "icp")
    requires h.prefix == SaidOf(c, FixVersionString(icp)) && InStep(c, ins, msgs, h, t)
    requires Proper(c, kr, icp, h, Rotate(cfg, commits))
    requires var (h2, r) := Rotated(c, kr, h, cfg, commits); r.Ok? && Quorate(c, r.value, receipts, h2)
    ensures var (h2, r) := Rotated(c, kr, h, cfg, commits);
      && Arrived(c, r.value, receipts) == Ok(m) && NextFor(c, ins, m, h.prefix, st2)
      && InStep(c, ins + [Input(m, true)], msgs + [m], h2, RotationTerms(cfg)) && h2.prefix == h.prefix
  {
    hide Rotated, Delivered, Arrived, Advance, NextState, Agrees, OnTerms, Derived, Ideal, FixVersionString,
         DeclaredSize, SaneRotation, Draft, RotationDraft, SaidOf, Separate, Says, Derive, Run, LogOf, NextFor,
         Quorate, Finish, AllAble, WellFormed, EntryOf, ReceiptsOf, HasUnknown, GoodReceipts, VerifyReceipts, KeysOf,
         DigestsOf;
    var (h2, r) := Rotated(c, kr, h, cfg, commits);
    var st := Run(c, ins).kevers[h.prefix];
    var sad := RotationDraftOf(c, kr, h, cfg).value;
    var next := Derive(kr, h.salt, h.code, h.transferable, h.keyGen + 1, cfg.nextCount).value;
    RotationHead(h, cfg, KeysOf(h.nextSigners), DigestsOf(c, next));
    RotationReady(c, kr, h, st, cfg, commits);
    OtherTypeOtherSaid(c, icp, sad, "rot");
    var entry := RotationSimulated(c, kr, h, st, cfg, commits);
    st2 := NextState(c, st, entry, Validation).value;
    QuorateFacts(c, r.value, receipts, h2);
    IdealLaws(c, kr);
    ArrivesReceipted(c, kr, sad, h.nextSigners, receipts);
    m := Arrived(c, r.value, receipts).value;
    AgreedBackers(c, h2, st2);
    LaterIsNext(c, ins, m, h.prefix, st2);
    NextInStep(c, ins, msgs, h, m, h2, st2, RotationTerms(cfg));
  }

  lemma QuorateFacts(c: Suite, e: SignedEvent, receipts: Couples, h: Habitat)
    requires Quorate(c, e, receipts, h)
    ensures GoodReceipts(c, receipts)
    ensures (forall w :: w in receipts ==> c.matterRaw(w.1).Some?)
    ensures VerifyReceipts(c, e.raw, Decoded(c, receipts), h.backers, h.backerThreshold).Ok?
  {
  }

  lemma IdealLaws(c: Suite, kr: Keyring)
    requires Ideal(c, kr)
    ensures DigestLaw(c) && TextLaw(c) && DecodeLaw(c) && KeyringLaw(c, kr)
  {
  }

  lemma InteractionTaken(c: Suite, kr: Keyring, icp: Json, ins: seq<Input>, msgs: seq<ParsedMessage>, h: Habitat,
                         t: Terms, anchors: seq<Json>, commits: bool, receipts: Couples)
    returns (m: ParsedMessage, st2: KeyState)
    requires Ideal(c, kr) && Derived(kr, h) && Draft(icp) && Says(icp, "t", "icp")
    requires h.prefix == SaidOf(c, FixVersionString(icp)) && InStep(c, ins, msgs, h, t)
    requires Proper(c, kr, icp, h, Interact(anchors, commits))
    requires var (h2, r) := Interacted(c, kr, h, anchors, commits); r.Ok? && Quorate(c, r.value, receipts, h2)
    ensures var (h2, r) := Interacted(c, kr, h, anchors, commits);
      && Arrived(c, r.value, receipts) == Ok(m) && NextFor(c, ins, m, h.prefix, st2)
      && InStep(c, ins + [Input(m, true)], msgs + [m], h2, t) && h2.prefix == h.prefix
  {
    hide Interacted, Delivered, Arrived, Advance, NextState, Agrees, OnTerms, Derived, Ideal, FixVersionString,
         DeclaredSize, Draft, InteractionDraft, SaidOf, Separate, Says, Run, LogOf, NextFor, Quorate, Finish, AllAble,
         WellFormed, EntryOf, ReceiptsOf, HasUnknown, GoodReceipts, VerifyReceipts, ArrField, GetStr;
    var (h2, r) := Interacted(c, kr, h, anchors, commits);
    var st := Run(c, ins).kevers[h.prefix];
    InteractionFieldsOf(h, anchors);
    InteractionReady(c, kr, h, st, anchors, commits);
    OtherTypeOtherSaid(c, icp, InteractionDraft(h, anchors), "ixn");
    var entry := InteractionSimulated(c, kr, h, st, anchors, commits);
    st2 := NextState(c, st, entry, Validation).value;
    QuorateFacts(c, r.value, receipts, h2);
    IdealLaws(c, kr);
    ArrivesReceipted(c, kr, InteractionDraft(h, anchors), h.signers, receipts);
    m := Arrived(c, r.value, receipts).value;
    AgreedBackers(c, h2, st2);
    LaterIsNext(c, ins, m, h.prefix, st2);
    NextInStep(c, ins, msgs, h, m, h2, st2, t);
  }

  lemma InceptionReady(c: Suite, kr: Keyring, name: string, cfg: InceptionConfig, commits: bool)
    requires Ideal(c, kr) && SaneInception(cfg) && Incepted(c, kr, name, cfg, commits).Ok?
    requires InceptionDraftOf(c, kr, cfg).Ok?
    ensures var (h, e) := Incepted(c, kr, name, cfg, commits).value;
      var sad := InceptionDraftOf(c, kr, cfg).value;
      && Draft(sad) && WellFormed(c, sad, MAX_DEPTH) && AllAble(c, kr, h.signers)
      && Finish(c, kr, sad, h.signers) == Ok(e)
  {
    hide Finish, InceptionDraft, Derive, KeysOf, DigestsOf, WellFormed, AllAble, DigestLaw, TextLaw, DecodeLaw,
         KeyringLaw, Texts, Utf8, Base64Text, Draft;
    var salt := SaltOf(kr, cfg.salt).value;
    var signers := Derive(kr, salt, cfg.code, cfg.transferable, 0, cfg.count).value;
    var next := Derive(kr, salt, cfg.code, cfg.transferable, 1, cfg.nextCount).value;
    DerivedAble(c, kr, salt, cfg.code, cfg.transferable, 0, cfg.count);
    KeysAreTexts(c, kr, signers);
    DigestsAreTexts(c, next);
    InceptionWellFormed(c, cfg, KeysOf(signers), DigestsOf(c, next));
  }

  lemma VerfersAreKeys(c: Suite, sad: Json)
    requires VerfersOf(c, sad).Ok?
    ensures AsKeys(c, VerfersOf(c, sad).value).Ok?
  {
    hide Get;
  }

  /** The inception that is receipted and delivered comes first. */
  lemma FirstTaken(c: Suite, kr: Keyring, name: string, cfg: InceptionConfig, commits: bool, before: seq<Input>,
                   receipts: Couples) returns (m: ParsedMessage, st: KeyState)
    requires Ideal(c, kr) && SaneInception(cfg) && cfg.count < U64 && Incepted(c, kr, name, cfg, commits).Ok?
    requires InceptionDraftOf(c, kr, cfg).Ok? && DeclaredSize(InceptionDraftOf(c, kr, cfg).value) < 0x100_0000
    requires var (h, e) := Incepted(c, kr, name, cfg, commits).value;
      Quorate(c, e, receipts, h) && h.prefix !in Run(c, before).kevers
    ensures var (h, e) := Incepted(c, kr, name, cfg, commits).value;
      && Arrived(c, e, receipts) == Ok(m) && NextFor(c, before, m, h.prefix, st)
      && InStep(c, before + [Input(m, true)], [m], h, InceptionTerms(cfg))
  {
    hide Incepted, Delivered, Arrived, Agrees, OnTerms, Ideal, FixVersionString, DeclaredSize, SaneInception,
         InceptionDraftOf, SaidOf, Run, LogOf, NextFor, Quorate, Finish, AllAble, WellFormed, EntryOf, ReceiptsOf,
         HasUnknown, GoodReceipts, VerifyReceipts, Incept, VerfersOf, Start, Draft, Replay, LastQuorate;
    var (h, e) := Incepted(c, kr, name, cfg, commits).value;
    var sad := InceptionDraftOf(c, kr, cfg).value;
    InceptionReady(c, kr, name, cfg, commits);
    var entry := InceptionSimulated(c, kr, name, cfg, commits);
    var keys := VerfersOf(c, entry.sad).value;
    st := Incept(c, entry, keys).value;
    QuorateFacts(c, e, receipts, h);
    IdealLaws(c, kr);
    ArrivesReceipted(c, kr, sad, h.signers, receipts);
    m := Arrived(c, e, receipts).value;
    AgreedBackers(c, h, st);
    VerfersAreKeys(c, entry.sad);
    FirstIsNext(c, before, m, keys, st);
    LogInvariant(c, before, h.prefix);
    assert [] + [m] == [m];
    NextInStep(c, before, [], h, m, h, st, InceptionTerms(cfg));
  }

  // ---------- the whole life ----------

  /** Every call that emits an event comes with a quorum of receipts of it. */
  ghost predicate QuorateLife(c: Suite, kr: Keyring, h: Habitat, cmds: seq<Command>, receipts: seq<Couples>) {
    if cmds == [] then receipts == []
    else
      var init, cmd := cmds[..|cmds| - 1], cmds[|cmds| - 1];
      if cmd.Resume? then QuorateLife(c, kr, h, init, receipts)
      else
        && receipts != [] && QuorateLife(c, kr, h, init, receipts[..|receipts| - 1])
        && var r := Returned(c, kr, After(c, kr, h, init), cmd)[0];
           r.Ok? && Quorate(c, r.value, receipts[|receipts| - 1], After(c, kr, h, cmds))
  }

  /** What arrives, event by event. */
  function Arrivals(c: Suite, events: seq<SignedEvent>, receipts: seq<Couples>): Result<seq<ParsedMessage>>
    requires |events| == |receipts|
  {
    if events == [] then Ok([])
    else
      var n := |events| - 1;
      var init :- Arrivals(c, events[..n], receipts[..n]);
      var last :- Arrived(c, events[n], receipts[n]);
      Ok(init + [last])
  }

  function Inputs(msgs: seq<ParsedMessage>): (ins: seq<Input>)
    ensures |ins| == |msgs| && forall i :: 0 <= i < |msgs| ==> ins[i] == Input(msgs[i], true)
  {
    seq(|msgs|, i requires 0 <= i < |msgs| => Input(msgs[i], true))
  }

  ghost predicate SomeNext(c: Suite, ins: seq<Input>, m: ParsedMessage, p: string) {
    exists st :: NextFor(c, ins, m, p, st)
  }

  /** Each message comes next for `p` when it comes. */
  ghost predicate EachNext(c: Suite, before: seq<Input>, msgs: seq<ParsedMessage>, p: string) {
    forall k :: 0 <= k < |msgs| ==> SomeNext(c, before + Inputs(msgs[..k]), msgs[k], p)
  }

  lemma EachNextMore(c: Suite, before: seq<Input>, msgs: seq<ParsedMessage>, m: ParsedMessage, p: string)
    requires EachNext(c, before, msgs, p) && SomeNext(c, before + Inputs(msgs), m, p)
    ensures EachNext(c, before, msgs + [m], p)
  {
    hide SomeNext;
    var more := msgs + [m];
    forall k | 0 <= k < |more| ensures SomeNext(c, before + Inputs(more[..k]), more[k], p) {
      if k < |msgs| {
        assert more[..k] == msgs[..k] && more[k] == msgs[k];
      } else {
        assert more[..k] == msgs && more[k] == m;
      }
    }
  }

  lemma ArrivalsMore(c: Suite, events: seq<SignedEvent>, receipts: seq<Couples>, e: SignedEvent, r: Couples,
                     msgs: seq<ParsedMessage>, m: ParsedMessage)
    requires |events| == |receipts| && Arrivals(c, events, receipts) == Ok(msgs) && Arrived(c, e, r) == Ok(m)
    ensures Arrivals(c, events + [e], receipts + [r]) == Ok(msgs + [m])
  {
    hide Arrived;
    assert (events + [e])[..|events|] == events && (receipts + [r])[..|receipts|] == receipts;
  }

  /** What has been delivered so far, and where it has led. */
  ghost predicate SoFar(c: Suite, before: seq<Input>, events: seq<SignedEvent>, receipts: seq<Couples>,
                        msgs: seq<ParsedMessage>, h: Habitat, t: Terms) {
    && |events| == |receipts| && Arrivals(c, events, receipts) == Ok(msgs)
    && EachNext(c, before, msgs, h.prefix) && InStep(c, before + Inputs(msgs), msgs, h, t)
  }

  lemma SoFarMore(c: Suite, before: seq<Input>, events: seq<SignedEvent>, receipts: seq<Couples>,
                  msgs: seq<ParsedMessage>, h: Habitat, t: Terms, e: SignedEvent, r: Couples, m: ParsedMessage,
                  h2: Habitat, st2: KeyState, t2: Terms)
    requires SoFar(c, before, events, receipts, msgs, h, t) && h2.prefix == h.prefix
    requires Arrived(c, e, r) == Ok(m) && NextFor(c, before + Inputs(msgs), m, h.prefix, st2)
    requires InStep(c, before + Inputs(msgs) + [Input(m, true)], msgs + [m], h2, t2)
    ensures SoFar(c, before, events + [e], receipts + [r], msgs + [m], h2, t2)
  {
    hide Arrived, Arrivals, NextFor, EachNext, InStep;
    ArrivalsMore(c, events, receipts, e, r, msgs, m);
    assert SomeNext(c, before + Inputs(msgs), m, h.prefix);
    EachNextMore(c, before, msgs, m, h.prefix);
    assert before + Inputs(msgs) + [Input(m, true)] == before + Inputs(msgs + [m]);
  }

  lemma {:induction false} RunTaken(c: Suite, kr: Keyring, icp: Json, before: seq<Input>, first: ParsedMessage,
                                    e0: SignedEvent, r0: Couples, h: Habitat, t: Terms, cmds: seq<Command>,
                                    receipts: seq<Couples>) returns (msgs: seq<ParsedMessage>)
    requires Ideal(c, kr) && Derived(kr, h) && Generations(h, 0)
    requires Draft(icp) && Says(icp, "t", "icp") && h.prefix == SaidOf(c, FixVersionString(icp))
    requires SoFar(c, before, [e0], [r0], [first], h, t)
    requires ProperRun(c, kr, icp, h, cmds) && QuorateLife(c, kr, h, cmds, receipts)
    ensures SoFar(c, before, [e0] + Emitted(Outputs(c, kr, h, cmds)), [r0] + receipts, msgs, After(c, kr, h, cmds),
                  LastTerms(t, cmds))
    ensures After(c, kr, h, cmds).prefix == h.prefix
    decreases |cmds|
  {
    hide Ideal, Derived, Generations, Draft, SoFar, Rotated, Interacted, Proper, FixVersionString, SaidOf, Resumed,
         Says, Quorate;
    if cmds == [] {
      msgs := [first];
      assert [e0] + [] == [e0] && [r0] + [] == [r0];
    } else {
      var init, cmd := cmds[..|cmds| - 1], cmds[|cmds| - 1];
      var now := After(c, kr, h, init);
      if cmd.Resume? {
        msgs := RunTaken(c, kr, icp, before, first, e0, r0, h, t, init, receipts);
        GenerationLaw(c, kr, h, init);
        ResumeIsIdentity(kr, now);
        assert Outputs(c, kr, h, init) + [] == Outputs(c, kr, h, init);
      } else {
        var some, r := receipts[..|receipts| - 1], receipts[|receipts| - 1];
        msgs := RunTaken(c, kr, icp, before, first, e0, r0, h, t, init, some);
        GenerationLaw(c, kr, h, init);
        var events := [e0] + Emitted(Outputs(c, kr, h, init));
        var e := Returned(c, kr, now, cmd)[0].value;
        var m := CallTaken(c, kr, icp, before, events, [r0] + some, msgs, now, LastTerms(t, init), cmd, r);
        msgs := msgs + [m];
        EmittedMore(Outputs(c, kr, h, init), e);
        assert events + [e] == [e0] + (Emitted(Outputs(c, kr, h, init)) + [e]);
        assert ([r0] + some) + [r] == [r0] + receipts;
      }
    }
  }

  /** One more call that emits an event. */
  lemma CallTaken(c: Suite, kr: Keyring, icp: Json, before: seq<Input>, events: seq<SignedEvent>,
                  receipts: seq<Couples>, msgs: seq<ParsedMessage>, h: Habitat, t: Terms, cmd: Command,
                  r: Couples)
    returns (m: ParsedMessage)
    requires Ideal(c, kr) && Derived(kr, h) && Draft(icp) && Says(icp, "t", "icp")
    requires h.prefix == SaidOf(c, FixVersionString(icp)) && SoFar(c, before, events, receipts, msgs, h, t)
    requires !cmd.Resume? && Proper(c, kr, icp, h, cmd) && Returned(c, kr, h, cmd)[0].Ok?
    requires Quorate(c, Returned(c, kr, h, cmd)[0].value, r, Perform(c, kr, h, cmd))
    ensures SoFar(c, before, events + [Returned(c, kr, h, cmd)[0].value], receipts + [r], msgs + [m],
                  Perform(c, kr, h, cmd), TermsAfter(t, cmd))
    ensures Perform(c, kr, h, cmd).prefix == h.prefix
  {
    hide Ideal, Derived, Draft, SoFar, Rotated, Interacted, Proper, FixVersionString, SaidOf, Says, Quorate, InStep,
         NextFor, Arrived;
    var ins := before + Inputs(msgs);
    SoFarStep(c, before, events, receipts, msgs, h, t);
    match cmd
    case Rotate(cfg, commits) =>
      var st2;
      m, st2 := RotationTaken(c, kr, icp, ins, msgs, h, t, cfg, commits, r);
      var (h2, x) := Rotated(c, kr, h, cfg, commits);
      SoFarMore(c, before, events, receipts, msgs, h, t, x.value, r, m, h2, st2, RotationTerms(cfg));
    case Interact(anchors, commits) =>
      var st2;
      m, st2 := InteractionTaken(c, kr, icp, ins, msgs, h, t, anchors, commits, r);
      var (h2, x) := Interacted(c, kr, h, anchors, commits);
      SoFarMore(c, before, events, receipts, msgs, h, t, x.value, r, m, h2, st2, t);
  }

  lemma SoFarStep(c: Suite, before: seq<Input>, events: seq<SignedEvent>, receipts: seq<Couples>,
                  msgs: seq<ParsedMessage>, h: Habitat, t: Terms)
    requires SoFar(c, before, events, receipts, msgs, h, t)
    ensures InStep(c, before + Inputs(msgs), msgs, h, t)
  {
    hide InStep, Arrivals, EachNext;
  }

  /**
   * Delivery: for every proper life of an identifier unknown to the receiver, whose events come with
   * quorums of receipts, each event's bytes parse with its receipts, the receiver's log of the
   * identifier is every emitted event in order, and the state it holds agrees with the identifier's,
   * on the terms of its last establishment.
   */
  lemma LifeIsDelivered(c: Suite, kr: Keyring, name: string, cfg: InceptionConfig, commits: bool, cmds: seq<Command>,
                        before: seq<Input>, r0: Couples, receipts: seq<Couples>) returns (msgs: seq<ParsedMessage>)
    requires Ideal(c, kr) && SaneInception(cfg) && cfg.count < U64 && Incepted(c, kr, name, cfg, commits).Ok?
    requires InceptionDraftOf(c, kr, cfg).Ok? && DeclaredSize(InceptionDraftOf(c, kr, cfg).value) < 0x100_0000
    requires var (h, e) := Incepted(c, kr, name, cfg, commits).value;
      && ProperRun(c, kr, InceptionDraftOf(c, kr, cfg).value, h, cmds)
      && Quorate(c, e, r0, h) && QuorateLife(c, kr, h, cmds, receipts) && h.prefix !in Run(c, before).kevers
    ensures var (h, e) := Incepted(c, kr, name, cfg, commits).value;
      var events, now := [e] + Emitted(Outputs(c, kr, h, cmds)), After(c, kr, h, cmds);
      && |events| == 1 + |receipts| && Arrivals(c, events, [r0] + receipts) == Ok(msgs)
      && LogOf(c, before + Inputs(msgs), h.prefix) == msgs && h.prefix in Run(c, before + Inputs(msgs)).kevers
      && Agrees(c, now, Run(c, before + Inputs(msgs)).kevers[h.prefix])
      && OnTerms(Run(c, before + Inputs(msgs)).kevers[h.prefix], LastTerms(InceptionTerms(cfg), cmds))
      && EachNext(c, before, msgs, h.prefix)
  {
    hide Ideal, SaneInception, Incepted, InceptionDraftOf, Agrees, OnTerms, LastTerms, ProperRun, QuorateLife,
         DeclaredSize, FixVersionString, SaidOf, Emitted, Outputs, After, Draft, Says, Derived, Generations, Quorate,
         Run, LogOf, NextFor, Arrived;
    var (h, e) := Incepted(c, kr, name, cfg, commits).value;
    DraftIsInception(c, kr, cfg);
    InceptionDerives(c, kr, name, cfg, commits);
    FirstFollows(c, kr, name, cfg, commits);
    var m, st := FirstTaken(c, kr, name, cfg, commits, before, r0);
    BeginSoFar(c, before, e, r0, m, h, InceptionTerms(cfg), st);
    var icp, t := InceptionDraftOf(c, kr, cfg).value, InceptionTerms(cfg);
    msgs := RunTaken(c, kr, icp, before, m, e, r0, h, t, cmds, receipts);
  }

  lemma BeginSoFar(c: Suite, before: seq<Input>, e: SignedEvent, r: Couples, m: ParsedMessage, h: Habitat, t: Terms,
                   st: KeyState)
    requires Arrived(c, e, r) == Ok(m) && NextFor(c, before, m, h.prefix, st)
    requires InStep(c, before + [Input(m, true)], [m], h, t)
    ensures SoFar(c, before, [e], [r], [m], h, t)
  {
    hide Arrived, NextFor, InStep;
    assert [e][..0] == [] && [r][..0] == [] && Arrivals(c, [], []) == Ok([]);
    assert [] + [m] == [m];
    assert Inputs([m]) == [Input(m, true)];
    assert [m][..0] == [] && before + Inputs([]) == before;
    assert SomeNext(c, before, m, h.prefix);
  }

  // ---------- the judge ----------

  /** A judge passes all of them on. */
  lemma {:induction false} JudgePassesOn(c: Suite, start: seq<Input>, msgs: seq<ParsedMessage>, p: string)
    requires p !in JudgeRun(c, start).duplicitous && EachNext(c, PassedOn(c, start), msgs, p)
    ensures PassedOn(c, start + Inputs(msgs)) == PassedOn(c, start) + Inputs(msgs)
    ensures p !in JudgeRun(c, start + Inputs(msgs)).duplicitous
    decreases |msgs|
  {
    hide *;
    if msgs == [] {
      assert start + Inputs(msgs) == start && PassedOn(c, start) + Inputs(msgs) == PassedOn(c, start);
    } else {
      var n := |msgs| - 1;
      var init, m := msgs[..n], msgs[n];
      EachNextInit(c, PassedOn(c, start), msgs, p);
      JudgePassesOn(c, start, init, p);
      var st := TheNext(c, PassedOn(c, start + Inputs(init)), m, p);
      NextIsPassedOn(c, start + Inputs(init), m, p, st);
      LastInput(start, msgs);
      LastInput(PassedOn(c, start), msgs);
    }
  }

  lemma LastInput(before: seq<Input>, msgs: seq<ParsedMessage>)
    requires msgs != []
    ensures var n := |msgs| - 1;
      (before + Inputs(msgs[..n])) + [Input(msgs[n], true)] == before + Inputs(msgs)
  {
  }

  lemma EachNextInit(c: Suite, before: seq<Input>, msgs: seq<ParsedMessage>, p: string)
    requires EachNext(c, before, msgs, p) && msgs != []
    ensures var n := |msgs| - 1;
      EachNext(c, before, msgs[..n], p) && SomeNext(c, before + Inputs(msgs[..n]), msgs[n], p)
  {
    hide SomeNext;
    var init := msgs[..|msgs| - 1];
    forall k | 0 <= k < |init| ensures SomeNext(c, before + Inputs(init[..k]), init[k], p) {
      assert init[..k] == msgs[..k] && init[k] == msgs[k];
    }
  }

  lemma TheNext(c: Suite, ins: seq<Input>, m: ParsedMessage, p: string) returns (st: KeyState)
    requires SomeNext(c, ins, m, p)
    ensures NextFor(c, ins, m, p, st)
  {
    hide NextFor;
    st :| NextFor(c, ins, m, p, st);
  }

  lemma {:induction false} ArrivalsCount(c: Suite, events: seq<SignedEvent>, receipts: seq<Couples>)
    requires |events| == |receipts| && Arrivals(c, events, receipts).Ok?
    ensures |Arrivals(c, events, receipts).value| == |events|
    decreases |events|
  {
    hide Arrived;
    if events != [] {
      var n := |events| - 1;
      ArrivalsCount(c, events[..n], receipts[..n]);
    }
  }

  /** So a judge that knows nothing against the identifier trusts it after its life, and holds its log and state. */
  lemma LifeIsTrusted(c: Suite, kr: Keyring, name: string, cfg: InceptionConfig, commits: bool, cmds: seq<Command>,
                      start: seq<Input>, r0: Couples, receipts: seq<Couples>) returns (msgs: seq<ParsedMessage>)
    requires Ideal(c, kr) && SaneInception(cfg) && cfg.count < U64 && Incepted(c, kr, name, cfg, commits).Ok?
    requires InceptionDraftOf(c, kr, cfg).Ok? && DeclaredSize(InceptionDraftOf(c, kr, cfg).value) < 0x100_0000
    requires var (h, e) := Incepted(c, kr, name, cfg, commits).value;
      && ProperRun(c, kr, InceptionDraftOf(c, kr, cfg).value, h, cmds)
      && Quorate(c, e, r0, h) && QuorateLife(c, kr, h, cmds, receipts)
      && VerdictOf(JudgeRun(c, start), h.prefix) == Unseen
    ensures var (h, e) := Incepted(c, kr, name, cfg, commits).value;
      var events, ins := [e] + Emitted(Outputs(c, kr, h, cmds)), start + Inputs(msgs);
      && |events| == 1 + |receipts| == |msgs| && Arrivals(c, events, [r0] + receipts) == Ok(msgs)
      && VerdictOf(JudgeRun(c, ins), h.prefix) == Trusted && LogOf(c, PassedOn(c, ins), h.prefix) == msgs
      && Agrees(c, After(c, kr, h, cmds), JudgeRun(c, ins).v.kevers[h.prefix])
  {
    hide Ideal, SaneInception, Incepted, InceptionDraftOf, Agrees, ProperRun, QuorateLife, DeclaredSize, Emitted,
         Outputs, After, Quorate, Run, LogOf, Arrivals, JudgeRun, PassedOn, EachNext, OnTerms, LastTerms;
    var (h, e) := Incepted(c, kr, name, cfg, commits).value;
    JudgeIsVerifier(c, start);
    msgs := LifeIsDelivered(c, kr, name, cfg, commits, cmds, PassedOn(c, start), r0, receipts);
    JudgePassesOn(c, start, msgs, h.prefix);
    JudgeIsVerifier(c, start + Inputs(msgs));
    ArrivalsCount(c, [e] + Emitted(Outputs(c, kr, h, cmds)), [r0] + receipts);
  }
}
