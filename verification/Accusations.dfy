/** Concrete judges over the small instance: one past its cap, and one that flags an honest key. */
module Accusations {
  import opened Wrappers
  import opened Numerals
  import opened JsonValues
  import opened Versions
  import opened Primitives
  import opened Thresholds
  import opened Saids
  import opened Serders
  import opened WireValues
  import opened Events
  import opened KeyStates
  import opened Signatures
  import opened Kevers
  import opened Histories
  import opened Counters
  import opened Parsers
  import opened Composers
  import opened DirectMode
  import opened DirectRuns
  import opened Stores
  import opened Rebuilding
  import opened Judges
  import opened JudgeRuns
  import opened Habs
  import opened HabEvents
  import opened Simulation
  import opened Lifetimes
  import opened Consistency
  import opened ShortDrafts
  import opened Instances

  // ---------- inceptions under a key ----------

  const NO_TRAITS: seq<string> := []
  const ONE_TRAIT := ["X"]

  predicate SmallKeys(keys: seq<string>) {
    1 <= |keys| <= 2 && forall k :: k in keys ==> IsSmallKey(k)
  }

  predicate FewTraits(traits: seq<string>) {
    traits == NO_TRAITS || traits == ONE_TRAIT
  }

  /** An inception of these keys, any one of which can sign it, under the first of them as its prefix. */
  function KeyedDraft(keys: seq<string>, traits: seq<string>): (sad: Json)
    requires keys != []
    ensures Draft(sad)
  {
    var sad := InceptionDraft(TraitConfig(traits), keys, [DigestName(0)]);
    StillDraft(sad, keys[0]);
    Set(sad, "i", Str(keys[0]))
  }

  lemma StillDraft(sad: Json, prefix: string)
    requires Draft(sad)
    ensures Draft(Set(sad, "i", Str(prefix)))
  {
    GetSet(sad, "i", Str(prefix), "d");
    GetSet(sad, "i", Str(prefix), "i");
  }

  ghost function SmallSig(key: string, msg: string, i: nat): Siger {
    Siger(i, SigRaw(key, msg), SigQb64(key, msg, i))
  }

  /** The finished inception with one signature, by the key at `at`. */
  ghost function KeyedMessage(keys: seq<string>, traits: seq<string>, at: nat): ParsedMessage
    requires at < |keys|
  {
    var serder := KeyedSerder(keys, traits);
    ParsedMessage(serder, [ControllerSigs([SmallSig(keys[at], serder.raw, at)])])
  }

  ghost function KeyedSerder(keys: seq<string>, traits: seq<string>): Serder
    requires keys != []
  {
    var sad := KeyedDraft(keys, traits);
    var body := Finished(SmallSuite(), sad);
    Serder(Print(body), Some(Stamp(sad)), JsonKind, body)
  }

  function KeyedFeature(key: string, traits: seq<string>): (n: nat)
    ensures n < NAME_SPACE
  {
    1 + (if traits == [] then 0 else 8) + 16 * KeyNumber(key)
  }

  /** All fields of such an inception but `v` and `d`. */
  ghost predicate Keyed(v: Json, keys: seq<string>, traits: seq<string>)
    requires keys != []
  {
    && Says(v, "t", "icp") && Says(v, "i", keys[0]) && Says(v, "s", "0")
    && Get(v, "kt") == Some(Decimal(1)) && Holds(v, "k", keys)
    && Get(v, "nt") == Some(Decimal(1)) && Holds(v, "n", [DigestName(0)])
    && Says(v, "bt", Format(0, 10)) && Holds(v, "b", []) && Holds(v, "c", traits) && Get(v, "a") == Some(Arr([]))
  }

  lemma KeyedFields(keys: seq<string>, traits: seq<string>)
    requires keys != []
    ensures Keyed(KeyedDraft(keys, traits), keys, traits) && Says(KeyedDraft(keys, traits), "d", "")
  {
    hide InceptionDraft, Get, Set, DigestName, Format, Decimal, Strings;
    var cfg, digests := TraitConfig(traits), [DigestName(0)];
    var draft := InceptionDraft(cfg, keys, digests);
    InceptionHead(cfg, keys, digests);
    InceptionMiddle(cfg, keys, digests);
    InceptionTail(cfg, keys, digests);
    BlankDigest(cfg, keys, digests);
    forall k ensures Get(KeyedDraft(keys, traits), k) == if k == "i" then Some(Str(keys[0])) else Get(draft, k) {
      GetSet(draft, "i", Str(keys[0]), k);
    }
  }

  lemma BlankDigest(cfg: InceptionConfig, keys: seq<string>, digests: seq<string>)
    ensures Says(InceptionDraft(cfg, keys, digests), "d", "")
  {
    hide Get, Find, Strings, Format, Draft;
    FieldAt(InceptionDraft(cfg, keys, digests), 2);
  }

  /** Such drafts can be finished and read back. */
  lemma KeyedReady(keys: seq<string>, traits: seq<string>)
    requires SmallKeys(keys) && FewTraits(traits)
    ensures var sad := KeyedDraft(keys, traits);
      DeclaredSize(sad) < 0x100_0000 && WellFormed(SmallSuite(), sad, MAX_DEPTH)
  {
    hide InceptionDraft, Set, Get, DigestName, SmallSuite, DeclaredSize, WellFormed, SmallField, SmallValue;
    var cfg, digests := TraitConfig(traits), [DigestName(0)];
    var draft := InceptionDraft(cfg, keys, digests);
    ShortKeys(keys, traits);
    SmallInception(traits, keys, digests);
    SmallTextValue(keys[0]);
    SetSmall(draft, "i", Str(keys[0]));
    SmallDraftFits(KeyedDraft(keys, traits));
    InceptionWellFormed(SmallSuite(), cfg, keys, digests);
    TextWellFormed(SmallSuite(), keys[0], MAX_DEPTH - 1);
    KeysUtf8();
    SetWellFormed(SmallSuite(), draft, "i", Str(keys[0]), MAX_DEPTH);
  }

  lemma SmallTextValue(s: string)
    requires |s| <= 200
    ensures SmallValue(Str(s))
  {
  }

  lemma ShortKeys(keys: seq<string>, traits: seq<string>)
    requires SmallKeys(keys) && FewTraits(traits)
    ensures ShortTexts(keys) && ShortTexts(traits) && ShortTexts([DigestName(0)])
    ensures Texts(keys) && Texts(traits) && Texts([DigestName(0)]) && |keys[0]| == 44
  {
    NameIsDigest(0);
    hide DigestName, Utf8;
    Base64IsUtf8(DigestName(0));
    AsciiIsUtf8("X");
    forall i | 0 <= i < |keys| ensures |keys[i]| == 44 && Utf8(keys[i]) {
      assert keys[i] in keys;
      Base64IsUtf8(keys[i]);
    }
  }

  /** What `Build` makes of such a draft. */
  lemma KeyedBuilt(keys: seq<string>, traits: seq<string>)
    requires SmallKeys(keys) && FewTraits(traits)
    ensures Build(SmallSuite(), KeyedDraft(keys, traits)) ==
      Ok((KeyedSerder(keys, traits), DigestName(KeyedFeature(keys[0], traits))))
  {
    var c, sad := SmallSuite(), KeyedDraft(keys, traits);
    KeyedReady(keys, traits);
    SmallDigestLaw();
    hide SmallSuite, KeyedDraft, Draft, DeclaredSize, FixVersionString, New, Print, ToVersionString, DigestName,
         KeyedFeature, DigestLaw, TextLaw, SaidOf;
    FinishedEvent(c, sad);
    VersionField(Finished(c, sad));
    HeadSays(Finished(c, sad), Stamp(sad));
    Serders.Rebuild(Finished(c, sad), Stamp(sad));
    FixedDraft(sad);
    KeyedSaid(keys, traits);
  }

  lemma HeadSays(sad: Json, v: Version)
    requires Headed(sad, v)
    ensures GetStr(sad, "v") == Some(ToVersionString(v)) && Ascii(v.protocol)
  {
    VersionField(sad);
    hide ToVersionString;
  }

  lemma KeyedSaid(keys: seq<string>, traits: seq<string>)
    requires keys != [] && FewTraits(traits)
    ensures FixVersionString(KeyedDraft(keys, traits)).Obj?
    ensures SaidOf(SmallSuite(), FixVersionString(KeyedDraft(keys, traits))) ==
      DigestName(KeyedFeature(keys[0], traits))
  {
    var sad := KeyedDraft(keys, traits);
    KeyedFields(keys, traits);
    BlankKeeps(sad, "t");
    BlankKeeps(sad, "c");
    BlankKeeps(sad, "k");
    hide KeyedDraft, Draft, FixVersionString, Blank, DigestName, FeatureOf, KeyedFeature, Get, SmallSuite, SaidOf;
    FeatureRead(Blank(FixVersionString(sad)), keys, traits);
    SaidByFeature(FixVersionString(sad));
  }

  lemma FeatureRead(v: Json, keys: seq<string>, traits: seq<string>)
    requires Says(v, "t", "icp") && Holds(v, "k", keys) && Holds(v, "c", traits) && keys != []
    ensures FeatureOf(v) == KeyedFeature(keys[0], traits)
  {
    hide Get;
  }

  lemma CarriesOne(serder: Serder, said: string, s: Siger)
    ensures Assemble(serder, said, [s]).Ok?
  {
    hide CounterText, CodeOf, SigText;
    SigKindsHaveCodes(ControllerIdxSigs, TableOf(serder.version));
    GroupOpens(ControllerIdxSigs, TableOf(serder.version), 1, "");
  }

  /** The message is parsed from bytes. */
  lemma KeyedArrives(keys: seq<string>, traits: seq<string>, at: nat) returns (data: string)
    requires SmallKeys(keys) && FewTraits(traits) && at < |keys|
    ensures ParsedFrom(SmallSuite(), data, true, KeyedMessage(keys, traits, at))
  {
    var c, sad := SmallSuite(), KeyedDraft(keys, traits);
    var serder, said := KeyedSerder(keys, traits), DigestName(KeyedFeature(keys[0], traits));
    var sig := SmallSig(keys[at], serder.raw, at);
    KeyedReady(keys, traits);
    KeyedBuilt(keys, traits);
    SmallDigestLaw();
    DecodesOwnPrint();
    assert keys[at] in keys;
    SignatureTravels(keys[at], serder.raw, at);
    hide *;
    data := OneSignatureArrives(c, sad, serder, said, sig);
    KeyedUnfolded(keys, traits, at);
  }

  lemma KeyedUnfolded(keys: seq<string>, traits: seq<string>, at: nat)
    requires at < |keys|
    ensures var serder := KeyedSerder(keys, traits);
      KeyedMessage(keys, traits, at) == ParsedMessage(serder, [ControllerSigs([SmallSig(keys[at], serder.raw, at)])])
  {
  }

  /** A finished body with one signature is parsed from the bytes composed of them. */
  lemma OneSignatureArrives(c: Suite, sad: Json, serder: Serder, said: string, sig: Siger) returns (data: string)
    requires DigestLaw(c) && TextLaw(c) && DecodeLaw(c) && WellFormed(c, sad, MAX_DEPTH) && GoodSiger(c, sig)
    requires Draft(sad) && DeclaredSize(sad) < 0x100_0000 && Build(c, sad) == Ok((serder, said))
    ensures ParsedFrom(c, data, true, ParsedMessage(serder, [ControllerSigs([sig])]))
  {
    hide Draft, DeclaredSize, Build, DigestLaw, TextLaw, DecodeLaw, Assemble, ParseNext, WellFormed, GoodSiger;
    CarriesOne(serder, said, sig);
    var e := Assemble(serder, said, [sig]).value;
    ComposedRead(c, sad, serder, said, [sig], e);
    data := e.composed;
  }

  // ---------- they pass ----------

  lemma OneSignature(keys: seq<string>, msg: string, at: nat)
    requires at < |keys|
    ensures VerifySigs(SmallSuite(), msg, [SmallSig(keys[at], msg, at)], keys, Simple(1)).Ok?
  {
    hide SigRaw, SigQb64, Unprinted, Feature, DigestName;
    var c, sigs := SmallSuite(), [SmallSig(keys[at], msg, at)];
    assert sigs[0] in sigs && SignedBy(c, msg, sigs[0], keys);
    assert at in Signatures.Signed(c, msg, sigs, keys);
    assert Signatures.Signed(c, msg, sigs, keys) == {at};
  }

  /** Such a message is a valid inception. */
  lemma KeyedIncepts(keys: seq<string>, traits: seq<string>, at: nat)
    requires SmallKeys(keys) && FewTraits(traits) && at < |keys|
    ensures var c, m := SmallSuite(), KeyedMessage(keys, traits, at);
      && VerfersOf(c, m.serder.sad) == Ok(keys) && EntryOf(m) == WholeEntryOf(m) && Incept(c, EntryOf(m), keys).Ok?
      && Incept(c, EntryOf(m), keys).value.backerThreshold == 0 && Incept(c, EntryOf(m), keys).value.keys == keys
      && Header(m.serder.sad) == Ok(ProcessResult(keys[0], 0, DigestName(KeyedFeature(keys[0], traits)), "icp"))
  {
    var c, m := SmallSuite(), KeyedMessage(keys, traits, at);
    var e := EntryOf(m);
    var said := DigestName(KeyedFeature(keys[0], traits));
    OneGroupOfSigs([SmallSig(keys[at], m.serder.raw, at)]);
    OneSignature(keys, m.serder.raw, at);
    SmallKeyFacts(keys);
    hide SmallSuite, KeyedDraft, Get, DigestName, EventSaid, VerifySaid, VerifySigs, InceptionOf, Print, SigRaw, Format,
         Decimal, Incept, VerfersOf, ValidatePrefix, AsKeys, KeyedFeature, IsSmallKey, KeyedMessage, Strings;
    var v := KeyedBody(keys, traits);
    var body := KeyedSerder(keys, traits).sad;
    KeyedEntry(keys, traits, at);
    hide KeyedSerder;
    JsonSaid(c, e);
    InceptionRead(body, v, said, keys[0], "0", 1, keys, 1, [DigestName(0)], Format(0, 10), [], traits, []);
    VerfersRead(c, body, keys);
    BackerThresholdRead(0);
    var icp := InceptionOf(body).value;
    KeyPrefix(c, icp);
    InceptionTaken(c, e, keys, icp, 0);
    InceptedState(icp);
    HeaderRead(body, keys[0], said);
  }

  lemma KeyedEntry(keys: seq<string>, traits: seq<string>, at: nat)
    requires at < |keys|
    ensures var m, serder := KeyedMessage(keys, traits, at), KeyedSerder(keys, traits);
      && m.serder == serder
      && EntryOf(m) == Entry(serder.raw, serder.sad, [SmallSig(keys[at], serder.raw, at)], JsonKind)
      && WholeEntryOf(m) == EntryOf(m)
  {
    hide KeyedSerder, SmallSig;
    OneGroupOfSigs([SmallSig(keys[at], KeyedSerder(keys, traits).raw, at)]);
    assert KeyedSerder(keys, traits).kind == JsonKind by { SerderKind(keys, traits); }
  }

  lemma SerderKind(keys: seq<string>, traits: seq<string>)
    requires keys != []
    ensures KeyedSerder(keys, traits).kind == JsonKind
  {
  }

  /** The body of the finished event, field by field. */
  lemma KeyedBody(keys: seq<string>, traits: seq<string>) returns (v: string)
    requires SmallKeys(keys) && FewTraits(traits)
    ensures var body, said := KeyedSerder(keys, traits).sad, DigestName(KeyedFeature(keys[0], traits));
      Says(body, "v", v) && Says(body, "d", said) && Keyed(body, keys, traits) && VerifySaid(SmallSuite(), body).Ok?
  {
    KeyedReady(keys, traits);
    KeyedBuilt(keys, traits);
    SmallDigestLaw();
    DecodesOwnPrint();
    KeyedFields(keys, traits);
    KeyIsNoDigest(keys, KeyedFeature(keys[0], traits));
    KeyedNames(KeyedDraft(keys, traits), keys, traits);
    NotSelfAddressing(KeyedDraft(keys, traits), keys[0]);
    var c, sad, body, said :=
      SmallSuite(), KeyedDraft(keys, traits), KeyedSerder(keys, traits).sad, DigestName(KeyedFeature(keys[0], traits));
    hide *;
    v := BuiltBody(c, sad);
    TakenOver(c, sad, body, v, said, keys, traits);
  }

  lemma KeyedNames(v: Json, keys: seq<string>, traits: seq<string>)
    requires keys != [] && Keyed(v, keys, traits)
    ensures Says(v, "i", keys[0])
  {
  }

  /** A finished body that is not self-addressing keeps all but `v` and `d`. */
  lemma TakenOver(c: Suite, sad: Json, body: Json, v: string, said: string, keys: seq<string>, traits: seq<string>)
    requires FilledIn(c, sad, body, v, said) && !SelfAddressing(sad)
    requires keys != [] && Keyed(sad, keys, traits) && keys[0] != said
    ensures Says(body, "v", v) && Says(body, "d", said) && VerifySaid(c, body).Ok? && Keyed(body, keys, traits)
  {
    hide Get, VerifySaid, DigestName, Strings, Decimal, Format;
  }

  lemma KeyIsNoDigest(keys: seq<string>, n: nat)
    requires SmallKeys(keys)
    ensures keys[0] != DigestName(n) && keys[0] != ""
  {
    assert keys[0] in keys;
    assert keys[0][0] == 'D' && DigestName(n)[0] == 'E';
  }

  lemma SmallKeyFacts(keys: seq<string>)
    requires SmallKeys(keys)
    ensures var c := SmallSuite();
      AsKeys(c, keys) == Ok(keys) && c.isKey(keys[0]) && c.digestCode(keys[0]).None?
  {
    hide Unprinted, Feature, SigRaw, DigestName;
    assert keys[0] in keys;
  }

  lemma KeyPrefix(c: Suite, icp: InceptionEvent)
    requires icp.keys != [] && icp.prefix == icp.keys[0] && c.isKey(icp.prefix) && c.digestCode(icp.prefix).None?
    ensures ValidatePrefix(c, icp).Ok?
  {
  }

  lemma InceptedState(icp: InceptionEvent)
    requires InceptionState(icp, None).Ok? && ParseBackerThreshold(icp.backerThreshold) == Ok(0)
    ensures InceptionState(icp, None).value.backerThreshold == 0 && InceptionState(icp, None).value.keys == icp.keys
  {
    hide ParseBackerThreshold;
  }

  lemma HeaderRead(sad: Json, prefix: string, said: string)
    requires Says(sad, "i", prefix) && Says(sad, "s", "0") && Says(sad, "d", said) && Says(sad, "t", "icp")
    ensures Header(sad) == Ok(ProcessResult(prefix, 0, said, "icp"))
  {
    hide Get, Parse;
    SnRead(0);
    assert Format(0, 16) == "0";
  }

  // ---------- past the cap ----------

  /** Two valid inceptions under one key, whoever signs the second. */
  lemma KeyedQuarrel(first: seq<string>, second: seq<string>, at: nat)
    requires SmallKeys(first) && SmallKeys(second) && first[0] == second[0] && at < |second|
    ensures var q := Quarrel(first[0], KeyedMessage(first, NO_TRAITS, 0), KeyedMessage(second, ONE_TRAIT, at));
      Quarrels(SmallSuite(), q)
  {
    var c, m := SmallSuite(), KeyedMessage(first, NO_TRAITS, 0);
    hide SmallSuite, Incept, VerfersOf, Header, DigestName, VerifyReceipts, SmallKeys, KeyedSerder, SmallSig;
    KeyedIncepts(first, NO_TRAITS, 0);
    KeyedIncepts(second, ONE_TRAIT, at);
    if DigestName(KeyedFeature(first[0], NO_TRAITS)) == DigestName(KeyedFeature(first[0], ONE_TRAIT)) {
      NamesDiffer(KeyedFeature(first[0], NO_TRAITS), KeyedFeature(first[0], ONE_TRAIT));
    }
    OneGroupOfSigs([SmallSig(first[0], m.serder.raw, 0)]);
    hide *;
    FirstAssessed(c, m, first);
    MakesQuarrel(c, Quarrel(first[0], m, KeyedMessage(second, ONE_TRAIT, at)), second);
  }

  /** Without backers an inception needs no receipts. */
  lemma FirstAssessed(c: Suite, m: ParsedMessage, keys: seq<string>)
    requires Header(m.serder.sad).Ok? && Header(m.serder.sad).value.ilk == "icp"
    requires VerfersOf(c, m.serder.sad) == Ok(keys) && Incept(c, EntryOf(m), keys).Ok?
    requires Incept(c, EntryOf(m), keys).value.backerThreshold == 0
    requires ReceiptsOf(m.attachments) == [] && !HasUnknown(m.attachments)
    ensures Assess(c, map[], m).Ok?
  {
    hide Incept, VerfersOf, Header, HasUnknown, ReceiptsOf;
  }

  lemma MakesQuarrel(c: Suite, q: Quarrel, second: seq<string>)
    requires Header(q.first.serder.sad).Ok? && Header(q.second.serder.sad).Ok?
    requires var p1, p2 := Header(q.first.serder.sad).value, Header(q.second.serder.sad).value;
      && p1.prefix == p2.prefix == q.prefix && p1.sn == p2.sn == 0 && p1.ilk == p2.ilk == "icp" && p1.said != p2.said
    requires Assess(c, map[], q.first).Ok?
    requires VerfersOf(c, q.second.serder.sad) == Ok(second) && Incept(c, WholeEntryOf(q.second), second).Ok?
    ensures Quarrels(c, q)
  {
    hide Assess, Incept, VerfersOf, Header;
  }

  /** The `n`-th key signs two inceptions. */
  ghost function QuarrelOf(n: nat): Quarrel {
    Quarrel(SmallKey(n), KeyedMessage([SmallKey(n)], NO_TRAITS, 0), KeyedMessage([SmallKey(n)], ONE_TRAIT, 0))
  }

  ghost function Family(n: nat): seq<Quarrel> {
    seq(n, i requires 0 <= i < n => QuarrelOf(i))
  }

  /** Families of up to 64^3 exist. */
  lemma FamilyQuarrels(n: nat)
    requires n <= KEY_SPACE
    ensures AllQuarrel(SmallSuite(), Family(n))
  {
    var qs := Family(n);
    hide SmallSuite, KeyedMessage, Quarrels, SmallKey;
    forall q | q in qs ensures Quarrels(SmallSuite(), q) {
      var i :| 0 <= i < n && qs[i] == q;
      KeyIsText(i);
      KeyedQuarrel([SmallKey(i)], [SmallKey(i)], 0);
    }
    forall i, j | 0 <= i < j < n ensures qs[i].prefix != qs[j].prefix {
      NumberOfKey(i);
      NumberOfKey(j);
    }
  }

  ghost predicate Arrives(c: Suite, m: ParsedMessage) {
    exists data, strict :: ParsedFrom(c, data, strict, m)
  }

  lemma {:induction false} QuarrelsArrive(c: Suite, qs: seq<Quarrel>)
    requires forall q :: q in qs ==> Arrives(c, q.first) && Arrives(c, q.second)
    ensures FromBytes(c, QuarrelInputs(qs))
  {
    hide ParsedFrom;
    if qs != [] {
      var init, q := qs[..|qs| - 1], qs[|qs| - 1];
      assert q in qs;
      forall x | x in init ensures Arrives(c, x.first) && Arrives(c, x.second) { assert x in qs; }
      QuarrelsArrive(c, init);
    }
  }

  lemma FamilyArrives(n: nat)
    ensures FromBytes(SmallSuite(), QuarrelInputs(Family(n)))
  {
    var c, qs := SmallSuite(), Family(n);
    hide SmallSuite, KeyedMessage, SmallKey, ParsedFrom, QuarrelInputs;
    forall q | q in qs ensures Arrives(c, q.first) && Arrives(c, q.second) {
      var i :| 0 <= i < n && qs[i] == q;
      KeyIsText(i);
      var one := KeyedArrives([SmallKey(i)], NO_TRAITS, 0);
      var two := KeyedArrives([SmallKey(i)], ONE_TRAIT, 0);
    }
    QuarrelsArrive(c, qs);
  }

  /** So some run over parsed bytes flags 10001 prefixes and has evidence for 10000 of them. */
  lemma EvidenceCanFallShort()
    ensures FromBytes(SmallSuite(), QuarrelInputs(Family(10001)))
    ensures var s := JudgeRun(SmallSuite(), QuarrelInputs(Family(10001)));
      |s.duplicitous| == 10001 && |s.del| == 10000 && Accused(s.del) != s.duplicitous
  {
    hide SmallSuite, JudgeRun, AllQuarrel, QuarrelInputs, FromBytes;
    FamilyQuarrels(10001);
    FamilyArrives(10001);
    PastTheCap(SmallSuite(), Family(10001));
  }

  // ---------- an honest key accused ----------

  /** Someone else's key signs a second inception under the first key as its prefix. */
  ghost function Usurped(): Quarrel {
    var key, other := SmallKey(0), SmallKey(1);
    Quarrel(key, KeyedMessage([key], NO_TRAITS, 0), KeyedMessage([key, other], ONE_TRAIT, 1))
  }

  /** The judge passes on the first message of a quarrel and challenges the second. */
  lemma QuarrelLog(c: Suite, q: Quarrel)
    requires Quarrels(c, q)
    ensures LogOf(c, PassedOn(c, QuarrelInputs([q])), q.prefix) == [q.first]
    ensures forall i :: i in QuarrelInputs([q]) ==> i.m == q.first || i.m == q.second
  {
    var i1, i2, ins := Input(q.first, true), Input(q.second, true), QuarrelInputs([q]);
    assert [q][..0] == [] && QuarrelInputs([]) == [];
    assert ins == [i1, i2];
    var s := FRESH_JUDGE;
    FirstOfQuarrel(c, s, q);
    FirstPasses(c, q);
    SecondChallenged(c, q, Judged(c, s, q.first, true).0);
    hide Judged, RouteOf, Assess, Quarrels, Extends;
    assert ins[..1] == [i1] && [i1][..0] == [];
    assert JudgeRun(c, [i1]) == Judged(c, s, q.first, true).0;
    assert PassedOn(c, []) == [];
    assert PassedOn(c, [i1]) == [] + [i1] == [i1];
    assert PassedOn(c, ins) == [i1] + [];
    assert PassedOn(c, ins) == [i1];
    assert LogOf(c, [i1], q.prefix) == [] + [i1.m];
  }

  lemma FirstPasses(c: Suite, q: Quarrel)
    requires Quarrels(c, q)
    ensures RouteOf(FRESH_JUDGE, q.first).PassOn?
    ensures Extends(c, EMPTY_VERIFIER, Input(q.first, true), q.prefix)
  {
    hide Header, Incept, VerfersOf, SnKey, VerifyReceipts, HasUnknown;
  }

  lemma SecondChallenged(c: Suite, q: Quarrel, s: JudgeState)
    requires Quarrels(c, q) && s.duplicitous == {}
    requires SnKey(q.prefix, 0) in s.v.tables.fels
    requires s.v.tables.fels[SnKey(q.prefix, 0)] == Header(q.first.serder.sad).value.said
    ensures RouteOf(s, q.second).Challenge?
  {
    hide Header, Incept, VerfersOf, SnKey, Assess;
  }

  lemma OnlyItsKeys(c: Suite, m: ParsedMessage, keys: seq<string>, k: string)
    requires Start(c, EntryOf(m)).Ok? && Start(c, EntryOf(m)).value.keys == keys && AcceptedKey(c, [m], k)
    ensures k in keys
  {
    hide Start;
    OneEntry(c, m);
    var n: nat :| 0 < n <= |[m]| && KeyAt(c, [m], n, k);
    assert [m][..n] == [m];
  }

  lemma OthersSignature(key: string, other: string, keys: seq<string>, traits: seq<string>, at: nat)
    requires at < |keys| && keys[at] == other && key != other && IsSmallKey(key) && IsSmallKey(other)
    ensures !Signs(SmallSuite(), key, KeyedMessage(keys, traits, at))
  {
    var m := KeyedMessage(keys, traits, at);
    OneGroupOfSigs([SmallSig(other, m.serder.raw, at)]);
    hide KeyedSerder, Feature, Unprinted, DigestName, CountText;
    if SigRaw(other, m.serder.raw) == SigRaw(key, m.serder.raw) {
      SignaturesDiffer(key, other, m.serder.raw, m.serder.raw);
    }
  }

  lemma UsurpedQuarrels()
    ensures Quarrels(SmallSuite(), Usurped())
    ensures SmallKeys([SmallKey(0)]) && SmallKeys([SmallKey(0), SmallKey(1)]) && SmallKey(0) != SmallKey(1)
  {
    KeyIsText(0);
    KeyIsText(1);
    NumberOfKey(0);
    NumberOfKey(1);
    hide SmallSuite, KeyedMessage, Quarrels, SmallKey, IsSmallKey, KeyNumber;
    KeyedQuarrel([SmallKey(0)], [SmallKey(0), SmallKey(1)], 1);
  }

  /** Whoever signs nothing but one inception contradicts nobody. */
  lemma HonestOfOne(c: Suite, q: Quarrel, key: string)
    requires Quarrels(c, q) && Start(c, EntryOf(q.first)).Ok? && Start(c, EntryOf(q.first)).value.keys == [key]
    requires !Signs(c, key, q.second)
    ensures Honest(c, QuarrelInputs([q]), q.prefix)
  {
    QuarrelLog(c, q);
    hide *;
    SignsOnlyFirst(c, QuarrelInputs([q]), q, key);
    HonestThere(c, QuarrelInputs([q]), q.prefix, [q.first]);
  }

  lemma HonestThere(c: Suite, ins: seq<Input>, p: string, log: seq<ParsedMessage>)
    requires LogOf(c, PassedOn(c, ins), p) == log && HonestKeys(c, ins, log, p)
    ensures Honest(c, ins, p)
  {
    hide HonestKeys, LogOf, PassedOn;
  }

  lemma SignsOnlyFirst(c: Suite, ins: seq<Input>, q: Quarrel, key: string)
    requires forall i :: i in ins ==> i.m == q.first || i.m == q.second
    requires Start(c, EntryOf(q.first)).Ok? && Start(c, EntryOf(q.first)).value.keys == [key]
    requires !Signs(c, key, q.second)
    ensures HonestKeys(c, ins, [q.first], q.prefix)
  {
    hide Start, Signs, AcceptedKey;
    forall i, j, k, l |
      i in ins && j in ins && AcceptedKey(c, [q.first], k) && AcceptedKey(c, [q.first], l) &&
      Signs(c, k, i.m) && Signs(c, l, j.m)
      ensures !Agreement.Conflict(i.m, j.m, q.prefix)
    {
      OnlyItsKeys(c, q.first, [key], k);
      OnlyItsKeys(c, q.first, [key], l);
    }
  }

  lemma QuarrelFlagged(c: Suite, q: Quarrel)
    requires Quarrels(c, q)
    ensures VerdictOf(JudgeRun(c, QuarrelInputs([q])), q.prefix) == Duplicitous
  {
    hide Quarrels, JudgeRun, QuarrelInputs;
    assert AllQuarrel(c, [q]);
    QuarrelsAreFlagged(c, [q]);
    assert q in [q] && q.prefix in Quarrelling([q]);
  }

  /**
   * Without a self-addressing prefix an identifier is accused though its key has signed one event
   * only: two parsed messages suffice.
   */
  lemma HonestKeyAccused()
    ensures var c, ins := SmallSuite(), QuarrelInputs([Usurped()]);
      && FromBytes(c, ins) && Honest(c, ins, SmallKey(0)) && VerdictOf(JudgeRun(c, ins), SmallKey(0)) == Duplicitous
  {
    hide SmallKey, SmallSuite, KeyedMessage, Quarrels, Start, Signs, FromBytes, QuarrelInputs, SmallKeys;
    var c, q, key, other := SmallSuite(), Usurped(), SmallKey(0), SmallKey(1);
    UsurpedQuarrels();
    KeyIsText(0);
    KeyIsText(1);
    StartsPlainly([key], NO_TRAITS, 0);
    OthersSignature(key, other, [key, other], ONE_TRAIT, 1);
    UsurpedArrives();
    assert q.prefix == key;
    hide *;
    HonestOfOne(c, q, key);
    QuarrelFlagged(c, q);
  }

  lemma UsurpedArrives()
    ensures FromBytes(SmallSuite(), QuarrelInputs([Usurped()]))
  {
    UsurpedQuarrels();
    UsurpedMessages();
    hide *;
    var one := KeyedArrives([SmallKey(0)], NO_TRAITS, 0);
    var two := KeyedArrives([SmallKey(0), SmallKey(1)], ONE_TRAIT, 1);
    BothArrive(SmallSuite(), Usurped(), one, two);
  }

  lemma UsurpedMessages()
    ensures FewTraits(NO_TRAITS) && FewTraits(ONE_TRAIT)
    ensures Usurped().first == KeyedMessage([SmallKey(0)], NO_TRAITS, 0)
    ensures Usurped().second == KeyedMessage([SmallKey(0), SmallKey(1)], ONE_TRAIT, 1)
  {
    hide KeyedMessage, SmallKey;
  }

  lemma BothArrive(c: Suite, q: Quarrel, one: string, two: string)
    requires ParsedFrom(c, one, true, q.first) && ParsedFrom(c, two, true, q.second)
    ensures FromBytes(c, QuarrelInputs([q]))
  {
    hide ParsedFrom, QuarrelInputs;
    assert Arrives(c, q.first) && Arrives(c, q.second);
    QuarrelsArrive(c, [q]);
  }

  lemma StartsPlainly(keys: seq<string>, traits: seq<string>, at: nat)
    requires SmallKeys(keys) && FewTraits(traits) && at < |keys|
    ensures var e := EntryOf(KeyedMessage(keys, traits, at));
      Start(SmallSuite(), e).Ok? && Start(SmallSuite(), e).value.keys == keys
  {
    hide SmallSuite, KeyedSerder, Incept, VerfersOf, Start, DigestName, SmallSig, SmallKeys;
    KeyedIncepts(keys, traits, at);
    var e := EntryOf(KeyedMessage(keys, traits, at));
    AcceptedStarts(SmallSuite(), e, keys, Delegations.Proof(0, ""), (d, s, t) => Ok(None));
  }
}
