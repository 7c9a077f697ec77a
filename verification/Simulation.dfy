/** Everything a `Hab` emits is accepted by the verifier, and the two agree from then on. */
module Simulation {
  import opened Wrappers
  import opened Numerals
  import opened JsonValues
  import opened Primitives
  import opened Thresholds
  import opened Versions
  import opened Saids
  import opened Serders
  import opened WireValues
  import opened Events
  import opened KeyStates
  import opened Signatures
  import opened Kevers
  import opened Histories
  import opened Parsers
  import opened DirectMode
  import opened Habs
  import opened HabRuns
  import opened HabEvents

  /** The ideal primitives: digests, texts, decoding, keys and signatures. */
  ghost predicate Ideal(c: Suite, kr: Keyring) {
    DigestLaw(c) && TextLaw(c) && DecodeLaw(c) && KeyringLaw(c, kr)
  }

  /** What a receiver makes of the bytes of one event. */
  function Delivered(c: Suite, e: SignedEvent): Result<Entry> {
    var parsed :- ParseNext(c, e.composed, true);
    if parsed.1 != |e.composed| then Err(ParseError) else Ok(EntryOf(parsed.0))
  }

  // ---------- the relation ----------

  /** The verifier's state and the controller's. */
  ghost predicate Agrees(c: Suite, h: Habitat, st: KeyState) {
    && st.prefix == h.prefix && st.sn == h.sn && st.lastDigest == h.lastSaid
    && st.keys == KeysOf(h.signers) && st.nextKeys == DigestsOf(c, h.nextSigners)
    && st.backers == h.backers && st.backerThreshold == h.backerThreshold
    && !st.delegated && st.delegator == None
    && st.threshold.Simple? && 1 <= st.threshold.count <= |h.signers|
    && h.prefix != "" && Base64Text(h.prefix) && Base64Text(h.lastSaid)
  }

  /** What the last establishment event asked for, which only the verifier's state remembers. */
  datatype Terms = Terms(threshold: nat, nextThreshold: nat, config: seq<string>)

  predicate OnTerms(st: KeyState, t: Terms) {
    st.threshold == Simple(t.threshold) && st.nextThreshold == Simple(t.nextThreshold) && st.config == t.config
  }

  function InceptionTerms(cfg: InceptionConfig): Terms {
    Terms(cfg.threshold, cfg.nextThreshold, cfg.configTraits)
  }

  function RotationTerms(cfg: RotationConfig): Terms {
    Terms(cfg.threshold, cfg.nextThreshold, [])
  }

  // ---------- what reaches the verifier ----------

  lemma OneGroupOfSigs(sigs: seq<Siger>)
    ensures ControllerSigsOf([ControllerSigs(sigs)]) == sigs && ReceiptsOf([ControllerSigs(sigs)]) == []
    ensures !HasUnknown([ControllerSigs(sigs)])
  {
    var atts := [ControllerSigs(sigs)];
    assert atts[1..] == [];
    assert sigs + [] == sigs;
  }

  lemma SigsOfOne(serder: Serder, sigs: seq<Siger>)
    ensures EntryOf(ParsedMessage(serder, [ControllerSigs(sigs)])) == Entry(serder.raw, serder.sad, sigs, JsonKind)
  {
    var atts := [ControllerSigs(sigs)];
    assert atts[1..] == [];
    assert ControllerSigsOf(atts) == sigs + [];
  }

  /** The body of a finished event: its draft with `v` and `d` (and a self-addressing `i`) filled in. */
  ghost predicate FilledIn(c: Suite, draft: Json, body: Json, v: string, said: string) {
    && Says(body, "v", v) && Says(body, "d", said)
    && (SelfAddressing(draft) ==> Says(body, "i", said))
    && (forall key :: key != "v" && key != "d" && (key != "i" || !SelfAddressing(draft)) ==>
         Get(body, key) == Get(draft, key))
    && (SelfAddressing(draft) || !Says(draft, "i", said) ==> VerifySaid(c, body).Ok?)
  }

  lemma BuiltBody(c: Suite, sad: Json) returns (v: string)
    requires DigestLaw(c) && TextLaw(c) && DecodeLaw(c) && Draft(sad) && DeclaredSize(sad) < 0x100_0000
    requires WellFormed(c, sad, MAX_DEPTH)
    ensures Build(c, sad).Ok? && FilledIn(c, sad, Build(c, sad).value.0.sad, v, Build(c, sad).value.1)
    ensures Build(c, sad).value.1 == SaidOf(c, FixVersionString(sad))
  {
    hide Get, Build, EventSaid, VerifySaid, DeclaredSize, DigestLaw, TextLaw, DecodeLaw, Print, ToVersionString,
         FixVersionString, FromRaw, New, WellFormed;
    SelfDescription(c, sad, "");
    var body, said := Build(c, sad).value.0.sad, Build(c, sad).value.1;
    v := ToVersionString(Build(c, sad).value.0.version.value);
    VersionField(body);
    SaidIsComputed(c, sad);
    TextOfStr(body, "d", said);
    TextOfStr(body, "i", said);
    if SelfAddressing(sad) || !Says(sad, "i", said) {
      FinishedSaidVerifies(c, sad);
    }
  }

  /** A finished event arrives with the body of its draft, signed by every key. */
  lemma Arrives(c: Suite, kr: Keyring, sad: Json, signers: seq<Signer>) returns (entry: Entry, v: string)
    requires DigestLaw(c) && TextLaw(c) && DecodeLaw(c) && AllAble(c, kr, signers) && WellFormed(c, sad, MAX_DEPTH)
    requires Draft(sad) && DeclaredSize(sad) < 0x100_0000 && Finish(c, kr, sad, signers).Ok?
    ensures var e := Finish(c, kr, sad, signers).value;
      Delivered(c, e) == Ok(entry) && entry.kind == JsonKind && FilledIn(c, sad, entry.sad, v, e.said) &&
      e.said == SaidOf(c, FixVersionString(sad))
    ensures forall t :: 1 <= t <= |signers| ==> VerifySigs(c, entry.raw, entry.sigs, KeysOf(signers), Simple(t)).Ok?
  {
    hide Finish, ParseNext, SignFirst, VerifySigs, DeclaredSize, AllAble, DigestLaw, TextLaw, DecodeLaw, KeysOf,
         FilledIn, FixVersionString, SaidOf, Build, Draft, WellFormed;
    var serder, sigs := BytesRead(c, kr, sad, signers);
    SigsOfOne(serder, sigs);
    entry := Entry(serder.raw, serder.sad, sigs, JsonKind);
    v := BuiltBody(c, sad);
    forall t | 1 <= t <= |signers| ensures VerifySigs(c, entry.raw, entry.sigs, KeysOf(signers), Simple(t)).Ok? {
      AllKeysSign(c, kr, signers, serder.raw, t);
    }
  }

  lemma SaidIsComputed(c: Suite, sad: Json)
    requires sad.Obj? && Build(c, sad).Ok?
    ensures Build(c, sad).value.1 == SaidOf(c, FixVersionString(sad))
  {
    hide FixVersionString, New, Print, Blank;
  }

  lemma TextOfStr(sad: Json, key: string, s: string)
    ensures GetStr(sad, key) == Some(s) <==> Says(sad, key, s)
  {
    hide Get;
  }

  lemma AsKeysOk(c: Suite, kr: Keyring, signers: seq<Signer>)
    requires AllAble(c, kr, signers)
    ensures AsKeys(c, KeysOf(signers)) == Ok(KeysOf(signers))
  {
    forall k | k in KeysOf(signers) ensures c.isKey(k) {
      var i :| 0 <= i < |signers| && KeysOf(signers)[i] == k;
      assert Able(c, kr, signers[i]);
    }
  }

  // ---------- inception ----------

  predicate SaneInception(cfg: InceptionConfig) {
    && 1 <= cfg.threshold <= cfg.count && 1 <= cfg.nextThreshold < U64
    && cfg.backerThreshold <= |cfg.backers| && cfg.backerThreshold < U64
    && Texts(cfg.backers) && Texts(cfg.configTraits)
  }

  function InceptionDraftOf(c: Suite, kr: Keyring, cfg: InceptionConfig): Result<Json> {
    var salt :- SaltOf(kr, cfg.salt);
    var signers :- Derive(kr, salt, cfg.code, cfg.transferable, 0, cfg.count);
    var next :- Derive(kr, salt, cfg.code, cfg.transferable, 1, cfg.nextCount);
    Ok(InceptionDraft(cfg, KeysOf(signers), DigestsOf(c, next)))
  }

  lemma InceptionEventRead(c: Suite, kr: Keyring, cfg: InceptionConfig, signers: seq<Signer>, next: seq<Signer>)
    returns (entry: Entry, v: string)
    requires Ideal(c, kr) && SaneInception(cfg) && AllAble(c, kr, signers) && |signers| == cfg.count < U64
    requires var sad := InceptionDraft(cfg, KeysOf(signers), DigestsOf(c, next));
      DeclaredSize(sad) < 0x100_0000 && Finish(c, kr, sad, signers).Ok?
    ensures var e := Finish(c, kr, InceptionDraft(cfg, KeysOf(signers), DigestsOf(c, next)), signers).value;
      && Delivered(c, e) == Ok(entry) && EventSaid(c, entry).Ok? && Says(entry.sad, "t", "icp")
      && VerifySigs(c, entry.raw, entry.sigs, KeysOf(signers), Simple(cfg.threshold)).Ok?
      && Holds(entry.sad, "k", KeysOf(signers))
      && InceptionOf(entry.sad) ==
           Ok(InceptionEvent(v, "icp", e.said, e.said, "0", Simple(cfg.threshold), KeysOf(signers),
                             Simple(cfg.nextThreshold),
                             DigestsOf(c, next), Format(cfg.backerThreshold, 10), cfg.backers, cfg.configTraits, []))
      && e.said == SaidOf(c, FixVersionString(InceptionDraft(cfg, KeysOf(signers), DigestsOf(c, next))))
  {
    var keys, digests := KeysOf(signers), DigestsOf(c, next);
    var sad := InceptionDraft(cfg, keys, digests);
    hide Get, Finish, Delivered, InceptionDraft, DeclaredSize, AllAble, EventSaid, VerifySaid, VerifySigs, Strings,
         Format, DigestLaw, TextLaw, DecodeLaw, KeyringLaw, InceptionOf, KeysOf, DigestsOf, Decimal, WellFormed,
         Texts;
    KeysAreTexts(c, kr, signers);
    DigestsAreTexts(c, next);
    InceptionWellFormed(c, cfg, keys, digests);
    entry, v := Arrives(c, kr, sad, signers);
    JsonSaid(c, entry);
    InceptionHead(cfg, keys, digests);
    InceptionMiddle(cfg, keys, digests);
    InceptionTail(cfg, keys, digests);
    var said := Finish(c, kr, sad, signers).value.said;
    InceptionRead(entry.sad, v, said, said, "0", cfg.threshold, keys, cfg.nextThreshold, digests,
                  Format(cfg.backerThreshold, 10), cfg.backers, cfg.configTraits, []);
  }

  /** `Kever::new` on a body with these contents, signed by these keys. */
  lemma InceptionTaken(c: Suite, entry: Entry, keys: seq<string>, icp: InceptionEvent, bt: nat)
    requires Says(entry.sad, "t", "icp") && EventSaid(c, entry).Ok? && InceptionOf(entry.sad) == Ok(icp)
    requires icp.keys == keys && VerifySigs(c, entry.raw, entry.sigs, keys, icp.threshold).Ok?
    requires ValidatePrefix(c, icp).Ok? && icp.sn == "0"
    requires ParseBackerThreshold(icp.backerThreshold) == Ok(bt) && bt <= |icp.backers|
    ensures Incept(c, entry, keys) == InceptionState(icp, None) && Incept(c, entry, keys).Ok?
  {
    hide EventSaid, VerifySaid, InceptionOf, VerifySigs, Get, ParseBackerThreshold;
    SnRead(0);
    assert Format(0, 16) == "0";
  }

  lemma VerfersRead(c: Suite, sad: Json, keys: seq<string>)
    requires Holds(sad, "k", keys) && AsKeys(c, keys) == Ok(keys)
    ensures VerfersOf(c, sad) == Ok(keys) && EventKeys(sad) == keys
  {
    StringsRead(keys);
    ListsRead(sad, "k", keys);
    hide Get, StrArrField, AsKeys;
  }

  /** The inception a `Hab` emits is accepted from its bytes, and the two states agree. */
  lemma InceptionSimulated(c: Suite, kr: Keyring, name: string, cfg: InceptionConfig, commits: bool)
    returns (entry: Entry)
    requires Ideal(c, kr) && SaneInception(cfg) && cfg.count < U64
    requires Incepted(c, kr, name, cfg, commits).Ok?
    requires InceptionDraftOf(c, kr, cfg).Ok? && DeclaredSize(InceptionDraftOf(c, kr, cfg).value) < 0x100_0000
    ensures var (h, e) := Incepted(c, kr, name, cfg, commits).value;
      && Delivered(c, e) == Ok(entry)
      && VerfersOf(c, entry.sad).Ok? && Incept(c, entry, VerfersOf(c, entry.sad).value).Ok?
      && Start(c, entry) == Incept(c, entry, VerfersOf(c, entry.sad).value)
      && Agrees(c, h, Start(c, entry).value) && OnTerms(Start(c, entry).value, InceptionTerms(cfg))
      && h.prefix == SaidOf(c, FixVersionString(InceptionDraftOf(c, kr, cfg).value))
  {
    hide Finish, DeclaredSize, Get, EventSaid, VerifySaid, VerifySigs, Delivered, InceptionDraft, Strings, Derive,
         AllAble, InceptionOf, KeysOf, DigestsOf, FixVersionString, SaidOf, Incept, EventKeys, KeyringLaw, Format;
    var salt := SaltOf(kr, cfg.salt).value;
    var signers := Derive(kr, salt, cfg.code, cfg.transferable, 0, cfg.count).value;
    var next := Derive(kr, salt, cfg.code, cfg.transferable, 1, cfg.nextCount).value;
    DerivedAble(c, kr, salt, cfg.code, cfg.transferable, 0, cfg.count);
    DeriveLength(kr, salt, cfg.code, cfg.transferable, 0, cfg.count);
    var v;
    entry, v := InceptionEventRead(c, kr, cfg, signers, next);
    var icp := InceptionOf(entry.sad).value;
    AsKeysOk(c, kr, signers);
    VerfersRead(c, entry.sad, KeysOf(signers));
    BackerThresholdRead(cfg.backerThreshold);
    SaidIsDigest(c, InceptionDraft(cfg, KeysOf(signers), DigestsOf(c, next)));
    InceptionTaken(c, entry, KeysOf(signers), icp, cfg.backerThreshold);
    PlainStart(c, entry);
    InceptionAgrees(c, icp, Incepted(c, kr, name, cfg, commits).value.0, cfg);
  }

  lemma SaidIsDigest(c: Suite, sad: Json)
    requires DigestLaw(c) && TextLaw(c) && sad.Obj?
    ensures c.digestCode(SaidOf(c, FixVersionString(sad))).Some? && SaidOf(c, FixVersionString(sad)) != ""
    ensures Base64Text(SaidOf(c, FixVersionString(sad)))
  {
    hide Print, Blank, FixVersionString, Base64Text;
  }

  lemma PlainStart(c: Suite, e: Entry)
    requires Says(e.sad, "t", "icp")
    ensures Start(c, e) == Incept(c, e, EventKeys(e.sad))
  {
    hide Incept, Get, EventKeys;
  }

  lemma InceptionAgrees(c: Suite, icp: InceptionEvent, h: Habitat, cfg: InceptionConfig)
    requires InceptionState(icp, None).Ok? && ParseBackerThreshold(icp.backerThreshold) == Ok(cfg.backerThreshold)
    requires h.prefix == icp.prefix == icp.said == h.lastSaid && h.prefix != "" && Base64Text(h.prefix) && h.sn == 0
    requires icp.keys == KeysOf(h.signers) && icp.nextKeys == DigestsOf(c, h.nextSigners)
    requires icp.backers == h.backers && h.backerThreshold == cfg.backerThreshold
    requires icp.threshold == Simple(cfg.threshold) && 1 <= cfg.threshold <= |h.signers|
    requires icp.nextThreshold == Simple(cfg.nextThreshold) && icp.config == cfg.configTraits
    ensures Agrees(c, h, InceptionState(icp, None).value)
    ensures OnTerms(InceptionState(icp, None).value, InceptionTerms(cfg))
  {
    hide KeysOf, DigestsOf, ParseBackerThreshold;
  }

  // ---------- later events ----------

  /** The body is neither the identifier's own inception nor anything with its SAID. */
  ghost predicate NotThePrefix(c: Suite, h: Habitat, sad: Json)
    requires sad.Obj?
  {
    SaidOf(c, FixVersionString(sad)) != h.prefix
  }

  predicate SaneRotation(h: Habitat, cfg: RotationConfig) {
    && 1 <= cfg.threshold <= |h.nextSigners| < U64 && 1 <= cfg.nextThreshold < U64
    && h.backerThreshold <= |UpdateBackers(h.backers, cfg.backersRemove, cfg.backersAdd)| && h.backerThreshold < U64
    && Texts(cfg.backersRemove) && Texts(cfg.backersAdd)
  }

  lemma NotSelfAddressing(sad: Json, prefix: string)
    requires Says(sad, "d", "") && Says(sad, "i", prefix) && prefix != ""
    ensures !SelfAddressing(sad)
  {
    hide Get;
  }

  lemma RotationEventRead(c: Suite, kr: Keyring, h: Habitat, cfg: RotationConfig, next: seq<Signer>)
    returns (entry: Entry, v: string)
    requires DigestLaw(c) && TextLaw(c) && DecodeLaw(c) && AllAble(c, kr, h.nextSigners) && SaneRotation(h, cfg)
    requires h.prefix != "" && Base64Text(h.prefix) && Base64Text(h.lastSaid)
    requires var sad := RotationDraft(h, cfg, KeysOf(h.nextSigners), DigestsOf(c, next));
      DeclaredSize(sad) < 0x100_0000 && Finish(c, kr, sad, h.nextSigners).Ok? && NotThePrefix(c, h, sad)
    ensures var sad := RotationDraft(h, cfg, KeysOf(h.nextSigners), DigestsOf(c, next));
      var e := Finish(c, kr, sad, h.nextSigners).value;
      && Delivered(c, e) == Ok(entry) && EventSaid(c, entry).Ok?
      && Says(entry.sad, "t", "rot") && Says(entry.sad, "s", Format(h.sn + 1, 16)) && Base64Text(e.said)
      && VerifySigs(c, entry.raw, entry.sigs, KeysOf(h.nextSigners), Simple(cfg.threshold)).Ok?
      && RotationOf(entry.sad) ==
           Ok(RotationEvent(v, "rot", e.said, h.prefix, Format(h.sn + 1, 16), h.lastSaid, Simple(cfg.threshold),
                            KeysOf(h.nextSigners),
                            Simple(cfg.nextThreshold), DigestsOf(c, next), Format(h.backerThreshold, 10),
                            cfg.backersRemove, cfg.backersAdd, [], []))
  {
    hide Get, Finish, Delivered, RotationDraft, DeclaredSize, AllAble, EventSaid, VerifySaid, VerifySigs, Strings,
         Format, DigestLaw, TextLaw, DecodeLaw, RotationOf, KeysOf, DigestsOf, Decimal, UpdateBackers,
         SelfAddressing, FixVersionString, SaidOf, WellFormed, Texts, Base64Text, Utf8;
    var keys, digests := KeysOf(h.nextSigners), DigestsOf(c, next);
    var sad := RotationDraft(h, cfg, keys, digests);
    KeysAreTexts(c, kr, h.nextSigners);
    DigestsAreTexts(c, next);
    Base64IsUtf8(h.prefix);
    Base64IsUtf8(h.lastSaid);
    RotationWellFormed(c, h, cfg, keys, digests);
    entry, v := Arrives(c, kr, sad, h.nextSigners);
    JsonSaid(c, entry);
    SaidIsDigest(c, sad);
    RotationHead(h, cfg, keys, digests);
    RotationMiddle(h, cfg, keys, digests);
    RotationTail(h, cfg, keys, digests);
    NotSelfAddressing(sad, h.prefix);
    RotationRead(entry.sad, v, Finish(c, kr, sad, h.nextSigners).value.said, h.prefix, Format(h.sn + 1, 16), h.lastSaid,
                 cfg.threshold, keys, cfg.nextThreshold, digests, Format(h.backerThreshold, 10), cfg.backersRemove,
                 cfg.backersAdd);
  }

  lemma DigestsCommit(c: Suite, kr: Keyring, signers: seq<Signer>)
    requires DigestLaw(c) && AllAble(c, kr, signers)
    ensures Committed(c, KeysOf(signers), DigestsOf(c, signers))
  {
    forall i | 0 <= i < |signers| ensures Matches(c, KeysOf(signers)[i], DigestsOf(c, signers)[i]) {
      assert Able(c, kr, signers[i]);
    }
  }

  lemma NextChecked(c: Suite, st: KeyState, e: Entry, ilk: string)
    requires EventSaid(c, e).Ok? && Says(e.sad, "t", ilk) && Says(e.sad, "s", Format(st.sn + 1, 16)) && st.sn + 1 < U64
    ensures CheckNext(c, st, e, Validation) == Ok(ilk)
  {
    hide EventSaid, Get, Format, Parse;
    SnRead(st.sn + 1);
  }

  lemma RotationChecked(c: Suite, entry: Entry, rot: RotationEvent)
    requires RotationOf(entry.sad) == Ok(rot) && AsKeys(c, rot.keys) == Ok(rot.keys)
    requires VerifySigs(c, entry.raw, entry.sigs, rot.keys, rot.threshold).Ok?
    ensures CheckRotation(c, entry) == Ok(rot)
  {
    hide RotationOf, VerifySigs, AsKeys;
  }

  lemma RotationApplies(c: Suite, st: KeyState, rot: RotationEvent, bt: nat)
    requires rot.sn == Format(st.sn + 1, 16) && st.sn + 1 < U64 && rot.prefix == st.prefix && rot.prior == st.lastDigest
    requires Committed(c, rot.keys, st.nextKeys) && ParseBackerThreshold(rot.backerThreshold) == Ok(bt)
    requires bt <= |UpdateBackers(st.backers, rot.backersRemove, rot.backersAdd)|
    ensures ApplyRotation(c, st, rot) ==
      Ok(KeyState(st.prefix, st.sn + 1, rot.said, rot.threshold, rot.keys, rot.nextKeys, rot.nextThreshold, bt,
                  UpdateBackers(st.backers, rot.backersRemove, rot.backersAdd), rot.config, rot.said, st.delegated,
                  st.delegator))
  {
    hide Committed, ParseBackerThreshold, UpdateBackers, Format, Parse;
    SnRead(st.sn + 1);
  }

  lemma PlainUpdate(c: Suite, st: KeyState, entry: Entry, ilk: string)
    requires CheckNext(c, st, entry, Validation) == Ok(ilk) && Says(entry.sad, "t", ilk) && !st.delegated
    ensures ilk == "rot" && CheckRotation(c, entry).Ok? ==>
      NextState(c, st, entry, Validation) == ApplyRotation(c, st, CheckRotation(c, entry).value)
    ensures ilk == "ixn" && CheckInteraction(c, st, entry).Ok? ==>
      NextState(c, st, entry, Validation) == ApplyInteraction(st, CheckInteraction(c, st, entry).value)
    ensures ilk != "drt" ==> Advance(c, st, entry) == NextState(c, st, entry, Validation)
  {
    hide CheckNext, CheckRotation, CheckInteraction, ApplyRotation, ApplyInteraction, Get, ApplyDelegatedRotation;
  }

  /** The rotation a `Hab` emits is accepted in the state it agrees with, and they agree again. */
  lemma RotationSimulated(c: Suite, kr: Keyring, h: Habitat, st: KeyState, cfg: RotationConfig, commits: bool)
    returns (entry: Entry)
    requires Ideal(c, kr) && Derived(kr, h) && Agrees(c, h, st) && SaneRotation(h, cfg) && h.sn + 1 < U64
    requires Rotated(c, kr, h, cfg, commits).1.Ok?
    requires RotationDraftOf(c, kr, h, cfg).Ok? && DeclaredSize(RotationDraftOf(c, kr, h, cfg).value) < 0x100_0000
    requires NotThePrefix(c, h, RotationDraftOf(c, kr, h, cfg).value)
    ensures var (h2, e) := (Rotated(c, kr, h, cfg, commits).0, Rotated(c, kr, h, cfg, commits).1.value);
      && Delivered(c, e) == Ok(entry) && NextState(c, st, entry, Validation).Ok?
      && Advance(c, st, entry) == NextState(c, st, entry, Validation)
      && Agrees(c, h2, NextState(c, st, entry, Validation).value)
      && OnTerms(NextState(c, st, entry, Validation).value, RotationTerms(cfg))
  {
    hide Finish, DeclaredSize, EventSaid, VerifySaid, VerifySigs, Delivered, RotationDraft, Derive, AllAble,
         RotationOf, KeysOf, DigestsOf, KeyringLaw, Format, NotThePrefix, UpdateBackers, Committed, NextState,
         Advance, CheckNext, CheckRotation, ApplyRotation, Says, DigestLaw, TextLaw, DecodeLaw, AsKeys,
         ParseBackerThreshold;
    var next := Derive(kr, h.salt, h.code, h.transferable, h.keyGen + 1, cfg.nextCount).value;
    DerivedAble(c, kr, h.salt, h.code, h.transferable, h.nextGen, |h.nextSigners|);
    var v;
    entry, v := RotationEventRead(c, kr, h, cfg, next);
    var rot := RotationOf(entry.sad).value;
    AsKeysOk(c, kr, h.nextSigners);
    DigestsCommit(c, kr, h.nextSigners);
    BackerThresholdRead(h.backerThreshold);
    NextChecked(c, st, entry, "rot");
    RotationChecked(c, entry, rot);
    PlainUpdate(c, st, entry, "rot");
    RotationApplies(c, st, rot, h.backerThreshold);
  }

  function RotationDraftOf(c: Suite, kr: Keyring, h: Habitat, cfg: RotationConfig): (r: Result<Json>)
    ensures r.Ok? ==> r.value.Obj?
  {
    var next :- Derive(kr, h.salt, h.code, h.transferable, h.keyGen + 1, cfg.nextCount);
    Ok(RotationDraft(h, cfg, KeysOf(h.nextSigners), DigestsOf(c, next)))
  }

  lemma InteractionEventRead(c: Suite, kr: Keyring, h: Habitat, anchors: seq<Json>) returns (entry: Entry, v: string)
    requires DigestLaw(c) && TextLaw(c) && DecodeLaw(c) && AllAble(c, kr, h.signers)
    requires h.prefix != "" && Base64Text(h.prefix) && Base64Text(h.lastSaid)
    requires WellFormed(c, Arr(anchors), MAX_DEPTH - 1)
    requires var sad := InteractionDraft(h, anchors);
      DeclaredSize(sad) < 0x100_0000 && Finish(c, kr, sad, h.signers).Ok? && NotThePrefix(c, h, sad)
    ensures var e := Finish(c, kr, InteractionDraft(h, anchors), h.signers).value;
      && Delivered(c, e) == Ok(entry) && EventSaid(c, entry).Ok?
      && Says(entry.sad, "t", "ixn") && Says(entry.sad, "s", Format(h.sn + 1, 16)) && Base64Text(e.said)
      && InteractionOf(entry.sad) ==
           Ok(InteractionEvent(v, "ixn", e.said, h.prefix, Format(h.sn + 1, 16), h.lastSaid, anchors))
    ensures forall t :: 1 <= t <= |h.signers| ==> VerifySigs(c, entry.raw, entry.sigs, KeysOf(h.signers), Simple(t)).Ok?
  {
    hide Get, Finish, Delivered, InteractionDraft, DeclaredSize, AllAble, EventSaid, VerifySaid, VerifySigs, Format,
         DigestLaw, TextLaw, DecodeLaw, InteractionOf, KeysOf, SelfAddressing, FixVersionString, SaidOf, WellFormed,
         Base64Text, Utf8;
    var sad := InteractionDraft(h, anchors);
    Base64IsUtf8(h.prefix);
    Base64IsUtf8(h.lastSaid);
    InteractionWellFormed(c, h, anchors);
    entry, v := Arrives(c, kr, sad, h.signers);
    JsonSaid(c, entry);
    SaidIsDigest(c, sad);
    InteractionFieldsOf(h, anchors);
    NotSelfAddressing(sad, h.prefix);
    InteractionRead(entry.sad, v, Finish(c, kr, sad, h.signers).value.said, h.prefix, Format(h.sn + 1, 16), h.lastSaid,
                    anchors);
  }

  lemma InteractionChecked(c: Suite, st: KeyState, entry: Entry, ixn: InteractionEvent)
    requires InteractionOf(entry.sad) == Ok(ixn) && AsKeys(c, st.keys) == Ok(st.keys)
    requires VerifySigs(c, entry.raw, entry.sigs, st.keys, st.threshold).Ok?
    ensures CheckInteraction(c, st, entry) == Ok(ixn)
  {
    hide InteractionOf, VerifySigs, AsKeys;
  }

  lemma InteractionApplies(st: KeyState, ixn: InteractionEvent)
    requires ixn.sn == Format(st.sn + 1, 16) && st.sn + 1 < U64 && ixn.prefix == st.prefix && ixn.prior == st.lastDigest
    ensures ApplyInteraction(st, ixn) == Ok(st.(sn := st.sn + 1, lastDigest := ixn.said))
  {
    hide Format, Parse;
    SnRead(st.sn + 1);
  }

  /** The same for interactions, signed by the keys in force. */
  lemma InteractionSimulated(c: Suite, kr: Keyring, h: Habitat, st: KeyState, anchors: seq<Json>, commits: bool)
    returns (entry: Entry)
    requires Ideal(c, kr) && Derived(kr, h) && Agrees(c, h, st) && h.sn + 1 < U64
    requires WellFormed(c, Arr(anchors), MAX_DEPTH - 1)
    requires Interacted(c, kr, h, anchors, commits).1.Ok?
    requires DeclaredSize(InteractionDraft(h, anchors)) < 0x100_0000 && NotThePrefix(c, h, InteractionDraft(h, anchors))
    ensures var (h2, e) := (Interacted(c, kr, h, anchors, commits).0, Interacted(c, kr, h, anchors, commits).1.value);
      && Delivered(c, e) == Ok(entry) && NextState(c, st, entry, Validation).Ok?
      && Advance(c, st, entry) == NextState(c, st, entry, Validation)
      && Agrees(c, h2, NextState(c, st, entry, Validation).value)
      && (forall t :: OnTerms(st, t) ==> OnTerms(NextState(c, st, entry, Validation).value, t))
      && ArrField(entry.sad, "a") == Ok(anchors) && GetStr(entry.sad, "d") == Some(e.said)
  {
    hide Finish, DeclaredSize, EventSaid, VerifySaid, VerifySigs, Delivered, InteractionDraft, Derive, AllAble,
         InteractionOf, KeysOf, DigestsOf, KeyringLaw, Format, NotThePrefix, NextState, Advance, CheckNext,
         CheckInteraction, ApplyInteraction, Says, DigestLaw, TextLaw, DecodeLaw, AsKeys, GetStr, ArrField;
    DerivedAble(c, kr, h.salt, h.code, h.transferable, h.signerGen, |h.signers|);
    var v;
    entry, v := InteractionEventRead(c, kr, h, anchors);
    var ixn := InteractionOf(entry.sad).value;
    AsKeysOk(c, kr, h.signers);
    assert VerifySigs(c, entry.raw, entry.sigs, st.keys, Simple(st.threshold.count)).Ok?;
    NextChecked(c, st, entry, "ixn");
    InteractionChecked(c, st, entry, ixn);
    PlainUpdate(c, st, entry, "ixn");
    InteractionFields(entry.sad);
    InteractionApplies(st, ixn);
  }
}
