/** Concrete runs over the small instance: a life with a rotation, and a judge past its cap. */
module Instances {
  import opened Wrappers
  import opened Numerals
  import opened JsonValues
  import opened Primitives
  import opened Saids
  import opened Serders
  import opened WireValues
  import opened Histories
  import opened Chains
  import opened Counters
  import opened Composers
  import opened Habs
  import opened HabRuns
  import opened HabEvents
  import opened Emissions
  import opened Simulation
  import opened Lifetimes
  import opened Consistency
  import opened ShortDrafts
  import Judges
  import JudgeRuns
  import DirectRuns
  import Deliveries
  import HabRecords
  import Haberies
  import HaberyRuns

  // ---------- a life with a rotation ----------

  const ONE_KEY := InceptionConfig("A", 1, 1, 1, 1, true, 0, [], [], Given(""))
  const ROTATE := RotationConfig(1, 1, 1, [], [])

  lemma DerivesOne(salt: string, generation: nat) returns (s: Signer)
    ensures Derive(SmallKeyring(), salt, "A", true, generation, 1) == Ok([s]) && |s.key| <= 108
  {
    var path := Path(generation, 0);
    s := Signer(path, SmallKey(if path == "" then 0 else path[0] as int));
    hide Path, SmallKey;
    assert Derive(SmallKeyring(), salt, "A", true, generation, 0) == Ok([]);
    assert [] + [s] == [s];
  }

  lemma SignsOne(s: Signer, msg: string)
    ensures SignFirst(SmallKeyring(), [s], msg, 1).Ok? && |SignFirst(SmallKeyring(), [s], msg, 1).value| == 1
  {
    hide SigRaw, SigQb64;
    assert SignFirst(SmallKeyring(), [s], msg, 0) == Ok([]);
  }

  /** One signer can finish any draft. */
  lemma FinishesOne(sad: Json, s: Signer)
    requires Draft(sad)
    ensures Finish(SmallSuite(), SmallKeyring(), sad, [s]).Ok?
  {
    var c, kr := SmallSuite(), SmallKeyring();
    DraftBuilds(c, sad);
    hide SmallSuite, SmallKeyring, Build, CounterText, CodeOf, SigText;
    var serder := Build(c, sad).value.0;
    SignsOne(s, serder.raw);
    SigKindsHaveCodes(ControllerIdxSigs, TableOf(serder.version));
    GroupOpens(ControllerIdxSigs, TableOf(serder.version), 1, "");
  }

  lemma OneDigit()
    ensures Format(1, 10) == "1" && Format(0, 10) == "0" && Format(1, 16) == "1"
  {
  }

  function TraitConfig(traits: seq<string>): InceptionConfig {
    ONE_KEY.(configTraits := traits)
  }

  /** An identifier that has just been incepted, with short texts. */
  predicate SmallState(h: Habitat) {
    |h.prefix| <= 200 && |h.lastSaid| <= 200 && h.sn == 0 && h.backerThreshold == 0
  }

  lemma InceptionFrontSmall(traits: seq<string>, keys: seq<string>, digests: seq<string>)
    requires ShortTexts(traits) && ShortTexts(keys) && ShortTexts(digests)
    ensures var fields := InceptionDraft(TraitConfig(traits), keys, digests).fields;
      && |fields| == 13
      && SmallField(fields[0])
      && SmallField(fields[1])
      && SmallField(fields[2])
      && SmallField(fields[3])
      && SmallField(fields[4])
  {
    hide Draft, Format, Strings, ShortTexts, Decimal, SmallValue;
    OneDigit();
    LiteralsSmall();
  }

  lemma InceptionCentreSmall(traits: seq<string>, keys: seq<string>, digests: seq<string>)
    requires ShortTexts(traits) && ShortTexts(keys) && ShortTexts(digests)
    ensures var fields := InceptionDraft(TraitConfig(traits), keys, digests).fields;
      && |fields| == 13
      && SmallField(fields[5])
      && SmallField(fields[6])
      && SmallField(fields[7])
      && SmallField(fields[8])
      && SmallField(fields[9])
  {
    hide Draft, Format, Strings, ShortTexts, Decimal, SmallValue;
    ShortStrings(keys);
    ShortStrings(digests);
    DecimalsSmall();
  }

  lemma InceptionBackSmall(traits: seq<string>, keys: seq<string>, digests: seq<string>)
    requires ShortTexts(traits) && ShortTexts(keys) && ShortTexts(digests)
    ensures var fields := InceptionDraft(TraitConfig(traits), keys, digests).fields;
      && |fields| == 13
      && SmallField(fields[10])
      && SmallField(fields[11])
      && SmallField(fields[12])
  {
    hide Draft, Format, Strings, ShortTexts;
    OneDigit();
    ShortStrings(keys);
    ShortStrings(digests);
    ShortStrings(traits);
    NoStrings();
  }

  lemma SmallInception(traits: seq<string>, keys: seq<string>, digests: seq<string>)
    requires ShortTexts(traits) && ShortTexts(keys) && ShortTexts(digests)
    ensures var sad := InceptionDraft(TraitConfig(traits), keys, digests);
      SmallObject(sad) && |sad.fields| == 13
  {
    hide InceptionDraft, ShortTexts, SmallField;
    InceptionFrontSmall(traits, keys, digests);
    InceptionCentreSmall(traits, keys, digests);
    InceptionBackSmall(traits, keys, digests);
    EachSmall(InceptionDraft(TraitConfig(traits), keys, digests).fields);
  }

  lemma LiteralsSmall()
    ensures SmallValue(Str(UNSIZED)) && SmallValue(Str("icp")) && SmallValue(Str("rot"))
    ensures SmallValue(Str("")) && SmallValue(Str("0")) && SmallValue(Str("1"))
  {
  }

  lemma DecimalsSmall()
    ensures SmallValue(Decimal(0)) && SmallValue(Decimal(1))
  {
    OneDigit();
  }

  lemma TextSmall(s: string)
    requires |s| <= 200
    ensures SmallValue(Str(s))
  {
  }

  lemma EachSmall(fields: seq<Field>)
    requires forall i :: 0 <= i < |fields| ==> SmallField(fields[i])
    ensures forall f :: f in fields ==> SmallField(f)
  {
  }

  lemma RotationFrontSmall(h: Habitat, keys: seq<string>, digests: seq<string>)
    requires ShortTexts(keys) && ShortTexts(digests) && SmallState(h)
    ensures var fields := RotationDraft(h, ROTATE, keys, digests).fields;
      && |fields| == 15
      && SmallField(fields[0])
      && SmallField(fields[1])
      && SmallField(fields[2])
      && SmallField(fields[3])
      && SmallField(fields[4])
  {
    hide Draft, Format, Strings, ShortTexts, Decimal, SmallValue;
    OneDigit();
    LiteralsSmall();
    TextSmall(h.prefix);
  }

  lemma RotationCentreSmall(h: Habitat, keys: seq<string>, digests: seq<string>)
    requires ShortTexts(keys) && ShortTexts(digests) && SmallState(h)
    ensures var fields := RotationDraft(h, ROTATE, keys, digests).fields;
      && |fields| == 15
      && SmallField(fields[5])
      && SmallField(fields[6])
      && SmallField(fields[7])
      && SmallField(fields[8])
      && SmallField(fields[9])
  {
    hide Draft, Format, Strings, ShortTexts, Decimal, SmallValue;
    ShortStrings(keys);
    ShortStrings(digests);
    DecimalsSmall();
    TextSmall(h.lastSaid);
  }

  lemma RotationBackSmall(h: Habitat, keys: seq<string>, digests: seq<string>)
    requires ShortTexts(keys) && ShortTexts(digests) && SmallState(h)
    ensures var fields := RotationDraft(h, ROTATE, keys, digests).fields;
      && |fields| == 15
      && SmallField(fields[10])
      && SmallField(fields[11])
      && SmallField(fields[12])
      && SmallField(fields[13])
      && SmallField(fields[14])
  {
    hide Draft, Format, Strings, ShortTexts;
    OneDigit();
    ShortStrings(keys);
    ShortStrings(digests);
    NoStrings();
  }

  lemma SmallRotation(h: Habitat, keys: seq<string>, digests: seq<string>)
    requires ShortTexts(keys) && ShortTexts(digests) && SmallState(h)
    ensures var sad := RotationDraft(h, ROTATE, keys, digests);
      SmallObject(sad) && |sad.fields| == 15
  {
    hide RotationDraft, ShortTexts, SmallField;
    RotationFrontSmall(h, keys, digests);
    RotationCentreSmall(h, keys, digests);
    RotationBackSmall(h, keys, digests);
    EachSmall(RotationDraft(h, ROTATE, keys, digests).fields);
  }

  /** The digest of a draft's body, by what it says of its type and traits. */
  lemma SaidByFeature(sad: Json)
    requires sad.Obj?
    ensures SaidOf(SmallSuite(), sad) == DigestName(FeatureOf(Blank(sad)))
  {
    UnprintedPrint(Blank(sad));
    hide Unprinted, Blank, Print, DigestName, FeatureOf;
  }

  lemma TypeFeature(v: Json, t: string)
    requires Get(v, "t") == Some(Str(t))
    ensures FeatureOf(v) % 8 == if t == "icp" then 1 else if t == "rot" then 2 else 3
  {
    hide Get, ListsTraits, FirstKey;
    Residue(TypeCode(v), ListsTraits(v), FirstKey(v));
  }

  lemma Residue(a: nat, more: bool, k: nat)
    requires a < 8
    ensures (a + (if more then 8 else 0) + 16 * k) % 8 == a
  {
    assert a + (if more then 8 else 0) + 16 * k == a + 8 * (2 * k + if more then 1 else 0);
  }

  lemma DraftFeature(sad: Json, t: string)
    requires Draft(sad) && Says(sad, "t", t)
    ensures sad.Obj? && FixVersionString(sad).Obj?
    ensures FeatureOf(Blank(FixVersionString(sad))) % 8 == if t == "icp" then 1 else if t == "rot" then 2 else 3
  {
    hide Get, FixVersionString, Blank, FeatureOf;
    BlankKeeps(sad, "t");
    TypeFeature(Blank(FixVersionString(sad)), t);
  }

  /** In the small instance an inception and a rotation never collide. */
  lemma TypesSeparate(icp: Json, rot: Json)
    requires Draft(icp) && Draft(rot) && Says(icp, "t", "icp") && Says(rot, "t", "rot")
    ensures Separate(SmallSuite(), FixVersionString(icp), FixVersionString(rot))
  {
    hide Get, FixVersionString, Blank, DigestName, FeatureOf, Print, SmallSuite, SaidOf, Says;
    DraftFeature(icp, "icp");
    DraftFeature(rot, "rot");
    SaidByFeature(FixVersionString(icp));
    SaidByFeature(FixVersionString(rot));
    var m, n := FeatureOf(Blank(FixVersionString(icp))), FeatureOf(Blank(FixVersionString(rot)));
    if DigestName(m) == DigestName(n) {
      NamesDiffer(m, n);
    }
  }

  lemma OneSigner(s: Signer)
    ensures KeysOf([s]) == [s.key] && DigestsOf(SmallSuite(), [s]) == [SmallSuite().digest("E", s.key)]
    ensures |SmallSuite().digest("E", s.key)| == 44
  {
    hide Feature;
  }

  /** Incepting with one key succeeds. */
  lemma InceptionSucceeds() returns (icp: Json, first: Signer, next: Signer)
    ensures InceptionDraftOf(SmallSuite(), SmallKeyring(), ONE_KEY) == Ok(icp)
    ensures Draft(icp) && Says(icp, "t", "icp") && DeclaredSize(icp) < 0x100_0000
    ensures Incepted(SmallSuite(), SmallKeyring(), "", ONE_KEY, true).Ok?
    ensures var h := Incepted(SmallSuite(), SmallKeyring(), "", ONE_KEY, true).value.0;
      h.signers == [first] && h.nextSigners == [next] && |next.key| <= 108 && h.transferable && h.code == "A" &&
      h.sn == 0 &&
      h.backers == [] && h.backerThreshold == 0 && h.prefix == h.lastSaid && |h.prefix| == 44
  {
    var c, kr := SmallSuite(), SmallKeyring();
    assert SaltOf(kr, ONE_KEY.salt) == Ok("");
    hide SmallSuite, SmallKeyring, Derive, Finish, InceptionDraft, DeclaredSize, SaidOf, FixVersionString, Draft,
         SmallObject, Says;
    first := DerivesOne("", 0);
    next := DerivesOne("", 1);
    OneSigner(first);
    OneSigner(next);
    icp := InceptionDraft(ONE_KEY, [first.key], [c.digest("E", next.key)]);
    DraftIsInception(c, kr, ONE_KEY);
    SmallInception([], [first.key], [c.digest("E", next.key)]);
    SmallDraftFits(icp);
    FinishesOne(icp, first);
    SaidOfFinished(c, kr, icp, [first]);
    SmallSaidLength(FixVersionString(icp));
  }

  lemma SmallSaidLength(sad: Json)
    requires sad.Obj?
    ensures |SaidOf(SmallSuite(), sad)| == 44
  {
    hide Feature, Blank, Print;
  }

  lemma SaidOfFinished(c: Suite, kr: Keyring, sad: Json, signers: seq<Signer>)
    requires sad.Obj? && Finish(c, kr, sad, signers).Ok?
    ensures Finish(c, kr, sad, signers).value.said == SaidOf(c, FixVersionString(sad))
  {
    hide Build, SignFirst, CounterText, CodeFor, FixVersionString, SaidOf, SigText;
    SaidIsComputed(c, sad);
  }

  lemma RotatesWith(c: Suite, kr: Keyring, h: Habitat, cfg: RotationConfig, next: seq<Signer>)
    requires h.transferable && Derive(kr, h.salt, h.code, h.transferable, h.keyGen + 1, cfg.nextCount) == Ok(next)
    requires Finish(c, kr, RotationDraft(h, cfg, KeysOf(h.nextSigners), DigestsOf(c, next)), h.nextSigners).Ok?
    ensures Rotated(c, kr, h, cfg, true).1.Ok?
    ensures RotationDraftOf(c, kr, h, cfg) == Ok(RotationDraft(h, cfg, KeysOf(h.nextSigners), DigestsOf(c, next)))
  {
    hide Derive, Finish, RotationDraft, KeysOf, DigestsOf, Installed;
  }

  lemma SaneRotate(h: Habitat)
    requires |h.nextSigners| == 1 && h.backers == [] && h.backerThreshold == 0
    ensures SaneRotation(h, ROTATE)
  {
  }

  /** Rotating once is a proper continuation. */
  lemma RotationIsProper(icp: Json, h: Habitat, next: Signer)
    requires Draft(icp) && Says(icp, "t", "icp") && h.nextSigners == [next] && |next.key| <= 108
    requires h.transferable && h.code == "A" && h.sn == 0 && h.backers == [] && h.backerThreshold == 0
    requires |h.prefix| <= 200 && h.lastSaid == h.prefix
    ensures Proper(SmallSuite(), SmallKeyring(), icp, h, Rotate(ROTATE, true))
  {
    hide SmallSuite, SmallKeyring, Derive, Finish, RotationDraft, DeclaredSize, FixVersionString, SmallObject,
         Separate, Says, Rotated, RotationDraftOf, SaneRotation, KeysOf, DigestsOf;
    var c, kr := SmallSuite(), SmallKeyring();
    var after := DerivesOne(h.salt, h.keyGen + 1);
    OneSigner(next);
    OneSigner(after);
    var rot := RotationDraft(h, ROTATE, [next.key], [c.digest("E", after.key)]);
    IsDraft(h, ROTATE, [next.key], [c.digest("E", after.key)]);
    RotationHead(h, ROTATE, [next.key], [c.digest("E", after.key)]);
    SmallRotation(h, [next.key], [c.digest("E", after.key)]);
    SmallDraftFits(rot);
    FinishesOne(rot, next);
    RotatesWith(c, kr, h, ROTATE, [after]);
    TypesSeparate(icp, rot);
    SaneRotate(h);
  }

  lemma Alone(c: Suite, kr: Keyring, icp: Json, h: Habitat, cmd: Command)
    requires icp.Obj? && Proper(c, kr, icp, h, cmd)
    ensures ProperRun(c, kr, icp, h, [cmd])
  {
    hide Proper, Perform;
    assert [cmd][..0] == [];
    assert After(c, kr, h, []) == h;
    assert ProperRun(c, kr, icp, h, []);
  }

  /** A proper life with a rotation exists; its two events are parsed from their bytes and accepted. */
  lemma RotatedLifeExists()
    ensures var c, kr := SmallSuite(), SmallKeyring();
      && Ideal(c, kr) && SaneInception(ONE_KEY)
      && InceptionDraftOf(c, kr, ONE_KEY).Ok? && InceptionDraftOf(c, kr, ONE_KEY).value.Obj?
      && Incepted(c, kr, "", ONE_KEY, true).Ok?
      && (var (h, e) := Incepted(c, kr, "", ONE_KEY, true).value;
          && ProperRun(c, kr, InceptionDraftOf(c, kr, ONE_KEY).value, h, [Rotate(ROTATE, true)])
          && var bytes := [e] + Emitted(Outputs(c, kr, h, [Rotate(ROTATE, true)]));
             |bytes| == 2 && DeliveredAll(c, bytes).Ok? && Replay(c, DeliveredAll(c, bytes).value).Ok?)
  {
    hide SmallSuite, SmallKeyring, Incepted, InceptionDraftOf, ProperRun, DeliveredAll, Replay, DeclaredSize, SaidOf,
         FixVersionString, Proper, Agrees, Rotated, Says, Ideal;
    var c, kr := SmallSuite(), SmallKeyring();
    IdealPrimitivesExist();
    var icp, first, next := InceptionSucceeds();
    var (h, e) := Incepted(c, kr, "", ONE_KEY, true).value;
    RotationIsProper(icp, h, next);
    Alone(c, kr, icp, h, Rotate(ROTATE, true));
    EverythingEmittedIsAccepted(c, kr, "", ONE_KEY, true, [Rotate(ROTATE, true)]);
    OneEmitted(c, kr, icp, h, ROTATE);
  }

  /** Without backers the empty list of receipts is a quorum. */
  lemma NoQuorumNeeded(c: Suite, e: SignedEvent, h: Habitat)
    requires h.backers == [] && h.backerThreshold == 0
    ensures Deliveries.Quorate(c, e, [], h)
  {
  }

  lemma RotatedBackers(c: Suite, kr: Keyring, h: Habitat)
    requires h.backers == [] && h.backerThreshold == 0
    ensures var h2 := Rotated(c, kr, h, ROTATE, true).0; h2.backers == [] && h2.backerThreshold == 0
  {
    hide RotationOutcome;
  }

  lemma RotationSucceeds(c: Suite, kr: Keyring, icp: Json, h: Habitat, cfg: RotationConfig)
    requires icp.Obj? && Proper(c, kr, icp, h, Rotate(cfg, true))
    ensures Rotated(c, kr, h, cfg, true).1.Ok?
  {
    hide Rotated, SaneRotation, RotationDraftOf, DeclaredSize, Separate;
  }

  lemma NoReceiptsNeeded(c: Suite, kr: Keyring, h: Habitat)
    requires h.backers == [] && h.backerThreshold == 0 && Rotated(c, kr, h, ROTATE, true).1.Ok?
    ensures Deliveries.QuorateLife(c, kr, h, [Rotate(ROTATE, true)], [[]])
  {
    hide Rotated, Deliveries.Quorate;
    var cmds := [Rotate(ROTATE, true)];
    assert cmds[..0] == [];
    assert After(c, kr, h, []) == h;
    RotatedBackers(c, kr, h);
    NoQuorumNeeded(c, Rotated(c, kr, h, ROTATE, true).1.value, Rotated(c, kr, h, ROTATE, true).0);
  }

  /** That life, delivered without receipts to a new judge, is trusted, as agreement says. */
  lemma RotatedLifeIsTrusted() returns (ins: seq<DirectRuns.Input>)
    ensures Incepted(SmallSuite(), SmallKeyring(), "", ONE_KEY, true).Ok?
    ensures var c, kr := SmallSuite(), SmallKeyring();
      var h := Incepted(c, kr, "", ONE_KEY, true).value.0;
      var s := JudgeRuns.JudgeRun(c, ins);
      && Judges.VerdictOf(s, h.prefix) == Judges.Trusted
      && Agrees(c, After(c, kr, h, [Rotate(ROTATE, true)]), s.v.kevers[h.prefix])
  {
    hide SmallSuite, SmallKeyring, Incepted, InceptionDraftOf, ProperRun, DeclaredSize, SaidOf, FixVersionString,
         Proper, Agrees, Rotated, Says, Ideal, After, Emitted, Outputs, Deliveries.Quorate, Deliveries.QuorateLife;
    var c, kr := SmallSuite(), SmallKeyring();
    IdealPrimitivesExist();
    var icp, first, next := InceptionSucceeds();
    var (h, e) := Incepted(c, kr, "", ONE_KEY, true).value;
    RotationIsProper(icp, h, next);
    Alone(c, kr, icp, h, Rotate(ROTATE, true));
    RotationSucceeds(c, kr, icp, h, ROTATE);
    NoQuorumNeeded(c, e, h);
    NoReceiptsNeeded(c, kr, h);
    ins := NewJudgeTrusts(c, kr, ONE_KEY, [Rotate(ROTATE, true)], [], [[]], h, e, icp);
  }

  lemma NewJudgeTrusts(c: Suite, kr: Keyring, cfg: InceptionConfig, cmds: seq<Command>, r0: Deliveries.Couples,
                       receipts: seq<Deliveries.Couples>, h: Habitat, e: SignedEvent, icp: Json)
    returns (ins: seq<DirectRuns.Input>)
    requires Ideal(c, kr) && SaneInception(cfg) && cfg.count < U64 && Incepted(c, kr, "", cfg, true) == Ok((h, e))
    requires InceptionDraftOf(c, kr, cfg) == Ok(icp) && DeclaredSize(icp) < 0x100_0000 && icp.Obj?
    requires ProperRun(c, kr, icp, h, cmds)
    requires Deliveries.Quorate(c, e, r0, h) && Deliveries.QuorateLife(c, kr, h, cmds, receipts)
    ensures var s := JudgeRuns.JudgeRun(c, ins);
      && Judges.VerdictOf(s, h.prefix) == Judges.Trusted && h.prefix in s.v.kevers
      && Agrees(c, After(c, kr, h, cmds), s.v.kevers[h.prefix])
  {
    hide Incepted, InceptionDraftOf, ProperRun, DeclaredSize, SaneInception, Agrees, Ideal, After, Emitted, Outputs;
    hide Deliveries.Quorate, Deliveries.QuorateLife, Deliveries.Arrivals;
    var msgs := Deliveries.LifeIsTrusted(c, kr, "", cfg, true, cmds, [], r0, receipts);
    ins := Deliveries.Inputs(msgs);
    assert [] + ins == ins;
  }

  lemma StateIsStorable(h: Habitat)
    requires h.name == "" && |h.prefix| == 44 && Base64Text(h.prefix) && h.lastSaid == h.prefix && h.code == "A"
    requires h.sn == 0 && h.keyGen == 2 && h.signerGen == 0 && h.nextGen == 1 && |h.signers| == |h.nextSigners| == 1
    requires h.backers == [] && h.backerThreshold == 0
    ensures HabRecords.Storable(StateOf(h))
  {
    hide Base64Text;
    Base64IsUtf8(h.prefix);
    AsciiIsUtf8("");
    AsciiIsUtf8("A");
  }

  lemma RotatedNumber(c: Suite, kr: Keyring, h: Habitat)
    requires Rotated(c, kr, h, ROTATE, true).1.Ok? && h.sn == 0
    ensures Rotated(c, kr, h, ROTATE, true).0.sn == 1
  {
    hide RotationOutcome;
  }

  const CALLS := [Haberies.InceptHab("", ONE_KEY, true), Haberies.RotateHab("", ROTATE, true)]

  lemma CallsRun(c: Suite, kr: Keyring, h: Habitat, e: SignedEvent)
    requires Incepted(c, kr, "", ONE_KEY, true) == Ok((h, e))
    ensures var g := HaberyRuns.Run(c, kr, CALLS); "" in g.habs && g.habs[""] == Rotated(c, kr, h, ROTATE, true).0
    ensures HaberyRuns.Born(c, kr, CALLS, "") == Some(h)
  {
    hide Incepted, Rotated, HaberyRuns.Born, HaberyRuns.Run, Haberies.Founded;
    assert CALLS[..1] == [Haberies.InceptHab("", ONE_KEY, true)] && CALLS[..1][..0] == [];
    HaberyRuns.RunStep(c, kr, CALLS);
    HaberyRuns.RunStep(c, kr, CALLS[..1]);
    HaberyRuns.NothingRun(c, kr);
    HaberyRuns.BornStays(c, kr, CALLS, "");
    HaberyRuns.BornStays(c, kr, CALLS[..1], "");
  }

  lemma BornName(c: Suite, kr: Keyring, name: string, cfg: InceptionConfig)
    requires Incepted(c, kr, name, cfg, true).Ok?
    ensures var h := Incepted(c, kr, name, cfg, true).value.0; h.name == name && SaltOf(kr, cfg.salt) == Ok(h.salt)
  {
    hide Derive, Finish, InceptionDraft;
  }

  lemma SmallNumbers()
    ensures HabRecords.NumberLaw(SmallSuite())
  {
  }

  lemma SmallSalt()
    ensures SaltOf(SmallKeyring(), ONE_KEY.salt) == Ok("")
  {
  }

  lemma IdealFacts(c: Suite, kr: Keyring)
    requires Ideal(c, kr)
    ensures DigestLaw(c) && TextLaw(c) && DecodeLaw(c)
  {
  }

  /** An identifier that has rotated is given back unrotated. */
  lemma RotatedIsNotResumed()
    ensures var c, kr := SmallSuite(), SmallKeyring();
      var before, again := HaberyRuns.Run(c, kr, CALLS), HaberyRuns.Run(c, kr, CALLS + HaberyRuns.Reopened("", ""));
      "" in before.habs && "" in again.habs && before.habs[""].sn == 1 && again.habs[""].sn == 0
  {
    hide SmallSuite, SmallKeyring, Incepted, InceptionDraftOf, DeclaredSize, Proper, Rotated, Says, Ideal, SaidOf,
         HaberyRuns.Run, HaberyRuns.Born, FixVersionString, HaberyRuns.RightSalt;
    var c, kr := SmallSuite(), SmallKeyring();
    IdealPrimitivesExist();
    SmallNumbers();
    SmallSalt();
    var icp, first, next := InceptionSucceeds();
    var (h, e) := Incepted(c, kr, "", ONE_KEY, true).value;
    RotationIsProper(icp, h, next);
    RotationSucceeds(c, kr, icp, h, ROTATE);
    RotatedNumber(c, kr, h);
    CallsRun(c, kr, h, e);
    BornName(c, kr, "", ONE_KEY);
    InceptionDerives(c, kr, "", ONE_KEY, true);
    IdealFacts(c, kr);
    FirstFollows(c, kr, "", ONE_KEY, true);
    SaidIsDigest(c, icp);
    StateIsStorable(h);
    assert HaberyRuns.RightSalts(c, kr, CALLS);
    HaberyRuns.ResumedExactly(c, kr, CALLS, "");
  }

  lemma OneEmitted(c: Suite, kr: Keyring, icp: Json, h: Habitat, cfg: RotationConfig)
    requires icp.Obj? && Proper(c, kr, icp, h, Rotate(cfg, true))
    ensures |Emitted(Outputs(c, kr, h, [Rotate(cfg, true)]))| == 1
  {
    hide Rotated, SaneRotation, RotationDraftOf, DeclaredSize, Separate, Interacted, Resumed, InteractionDraft,
         FixVersionString;
    var cmds := [Rotate(cfg, true)];
    assert cmds[..0] == [];
    assert After(c, kr, h, []) == h;
    assert Outputs(c, kr, h, []) == [];
    var r := Rotated(c, kr, h, cfg, true).1;
    assert Outputs(c, kr, h, cmds) == [r];
    OkIsEmitted(r);
  }

  lemma OkIsEmitted(r: Result<SignedEvent>)
    requires r.Ok?
    ensures |Emitted([r])| == 1
  {
    assert [r][..0] == [];
    assert Emitted([]) == [];
  }
}
