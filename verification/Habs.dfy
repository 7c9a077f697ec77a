/** The controller side: an identifier's keys, and the events it makes with them. */
module Habs {
  import opened Wrappers
  import opened Numerals
  import opened JsonValues
  import opened Primitives
  import opened Versions
  import opened Saids
  import opened Serders
  import opened KeyStates
  import opened Counters
  import opened Composers
  import opened Stores

  // ---------- keys ----------

  datatype Signer = Signer(seed: string, key: string)

  /** Key stretching and signing, uninterpreted. */
  datatype Keyring = Keyring(
    /** may `Salter::new("0A", salt)` use this salt? */
    isSalt: string -> bool,
    /** salt, algorithm code, derivation path, transferable */
    derive: (string, string, string, bool) -> Option<Signer>,
    /** `sign_indexed(message, index, true)` */
    sign: (Signer, string, nat) -> Option<Siger>)

  function Path(generation: nat, i: nat): string {
    Format(generation, 10) + "." + Format(i, 10)
  }

  /** The first `count` signers of a generation. */
  function Derive(kr: Keyring, salt: string, code: string, transferable: bool, generation: nat,
                  count: nat): Result<seq<Signer>> {
    if count == 0 then Ok([])
    else
      var init :- Derive(kr, salt, code, transferable, generation, count - 1);
      var signer :- OkOr(kr.derive(salt, code, Path(generation, count - 1), transferable), Crypto);
      Ok(init + [signer])
  }

  method DeriveSigners(kr: Keyring, salt: string, code: string, transferable: bool, generation: nat, count: nat)
    returns (r: Result<seq<Signer>>)
    ensures r == Derive(kr, salt, code, transferable, generation, count)
  {
    var signers: seq<Signer> := [];
    var i := 0;
    while i < count
      invariant 0 <= i <= count
      invariant Derive(kr, salt, code, transferable, generation, i) == Ok(signers)
    {
      var signer := kr.derive(salt, code, Path(generation, i), transferable);
      if signer.None? {
        DeriveFails(kr, salt, code, transferable, generation, i, count);
        return Err(Crypto);
      }
      signers := signers + [signer.value];
      i := i + 1;
    }
    r := Ok(signers);
  }

  lemma {:induction false} DeriveFails(kr: Keyring, salt: string, code: string, transferable: bool, generation: nat,
                                       i: nat, count: nat)
    requires i < count && Derive(kr, salt, code, transferable, generation, i).Ok?
    requires kr.derive(salt, code, Path(generation, i), transferable).None?
    ensures Derive(kr, salt, code, transferable, generation, count) == Err(Crypto)
  {
    if i + 1 < count {
      DeriveFails(kr, salt, code, transferable, generation, i, count - 1);
    }
  }

  function KeysOf(signers: seq<Signer>): (r: seq<string>)
    ensures |r| == |signers| && forall i :: 0 <= i < |r| ==> r[i] == signers[i].key
  {
    seq(|signers|, i requires 0 <= i < |signers| => signers[i].key)
  }

  /** The Blake3-256 digests that commit to these keys. */
  function DigestsOf(c: Suite, signers: seq<Signer>): (r: seq<string>)
    ensures |r| == |signers| && forall i :: 0 <= i < |r| ==> r[i] == c.digest("E", signers[i].key)
  {
    seq(|signers|, i requires 0 <= i < |signers| => c.digest("E", signers[i].key))
  }

  // ---------- event bodies ----------

  /** The configured salt, or what the random generator yields in its absence. */
  datatype SaltSource = Given(salt: string) | Drawn(outcome: Option<string>)

  datatype InceptionConfig = InceptionConfig(
    code: string, count: nat, threshold: nat, nextCount: nat, nextThreshold: nat, transferable: bool,
    backerThreshold: nat, backers: seq<string>, configTraits: seq<string>, salt: SaltSource)

  function SaltOf(kr: Keyring, source: SaltSource): Result<string> {
    match source
    case Given(salt) => if kr.isSalt(salt) then Ok(salt) else Err(Crypto)
    case Drawn(Some(salt)) => if kr.isSalt(salt) then Ok(salt) else Err(Crypto)
    case Drawn(None) => Err(Crypto)
  }

  datatype RotationConfig = RotationConfig(
    threshold: nat, nextCount: nat, nextThreshold: nat, backersRemove: seq<string>, backersAdd: seq<string>)

  function Strings(xs: seq<string>): Json {
    Arr(seq(|xs|, i requires 0 <= i < |xs| => Str(xs[i])))
  }

  function Decimal(n: nat): Json {
    Str(Format(n, 10))
  }

  lemma DraftShape(fields: seq<Field>)
    requires |fields| >= 4 && fields[0] == Field("v", Str(UNSIZED))
    requires fields[1].key == "t" && fields[2].key == "d" && fields[3].key == "i"
    ensures Draft(Obj(fields))
  {
    FindAt(fields, "d", 2);
    FindAt(fields, "i", 3);
  }

  function InceptionDraft(cfg: InceptionConfig, keys: seq<string>, digests: seq<string>): (sad: Json)
    ensures Draft(sad)
  {
    var fields := [
      Field("v", Str(UNSIZED)), Field("t", Str("icp")), Field("d", Str("")), Field("i", Str("")), Field("s", Str("0")),
      Field("kt", Decimal(cfg.threshold)), Field("k", Strings(keys)),
      Field("nt", Decimal(cfg.nextThreshold)), Field("n", Strings(digests)),
      Field("bt", Decimal(cfg.backerThreshold)), Field("b", Strings(cfg.backers)),
      Field("c", Strings(cfg.configTraits)), Field("a", Arr([]))];
    DraftShape(fields);
    Obj(fields)
  }

  function RotationDraft(h: Habitat, cfg: RotationConfig, keys: seq<string>, digests: seq<string>): (sad: Json)
    ensures Draft(sad)
  {
    var fields := [
      Field("v", Str(UNSIZED)), Field("t", Str("rot")), Field("d", Str("")), Field("i", Str(h.prefix)),
      Field("s", Str(Format(h.sn + 1, 16))), Field("p", Str(h.lastSaid)),
      Field("kt", Decimal(cfg.threshold)), Field("k", Strings(keys)),
      Field("nt", Decimal(cfg.nextThreshold)), Field("n", Strings(digests)),
      Field("bt", Decimal(h.backerThreshold)), Field("br", Strings(cfg.backersRemove)),
      Field("ba", Strings(cfg.backersAdd)), Field("c", Arr([])), Field("a", Arr([]))];
    DraftShape(fields);
    Obj(fields)
  }

  function InteractionDraft(h: Habitat, anchors: seq<Json>): (sad: Json)
    ensures Draft(sad)
  {
    var fields := [
      Field("v", Str(UNSIZED)), Field("t", Str("ixn")), Field("d", Str("")), Field("i", Str(h.prefix)),
      Field("s", Str(Format(h.sn + 1, 16))), Field("p", Str(h.lastSaid)), Field("a", Arr(anchors))];
    DraftShape(fields);
    Obj(fields)
  }

  // ---------- signed events ----------

  datatype SignedEvent = SignedEvent(said: string, raw: string, signatures: string, composed: string)

  /** The first `n` signers' signatures of a message, each under its own position. */
  function SignFirst(kr: Keyring, signers: seq<Signer>, message: string, n: nat): Result<seq<Siger>>
    requires n <= |signers|
  {
    if n == 0 then Ok([])
    else
      var init :- SignFirst(kr, signers, message, n - 1);
      var siger :- OkOr(kr.sign(signers[n - 1], message, n - 1), Crypto);
      Ok(init + [siger])
  }

  method SignWithAll(kr: Keyring, signers: seq<Signer>, message: string) returns (r: Result<string>)
    ensures var sigs := SignFirst(kr, signers, message, |signers|);
      r == if sigs.Ok? then Ok(SigText(sigs.value)) else Err(sigs.error)
  {
    var bytes := "";
    ghost var sigs: seq<Siger> := [];
    var i := 0;
    while i < |signers|
      invariant 0 <= i <= |signers|
      invariant SignFirst(kr, signers, message, i) == Ok(sigs) && bytes == SigText(sigs)
    {
      var siger := kr.sign(signers[i], message, i);
      if siger.None? {
        SigningFails(kr, signers, message, i, |signers|);
        return Err(Crypto);
      }
      SigTextAppend(sigs, siger.value);
      bytes := bytes + siger.value.qb64;
      sigs := sigs + [siger.value];
      i := i + 1;
    }
    r := Ok(bytes);
  }

  lemma {:induction false} SigningFails(kr: Keyring, signers: seq<Signer>, message: string, i: nat, n: nat)
    requires i < n <= |signers| && SignFirst(kr, signers, message, i).Ok? && kr.sign(signers[i], message, i).None?
    ensures SignFirst(kr, signers, message, n) == Err(Crypto)
  {
    if i + 1 < n {
      SigningFails(kr, signers, message, i, n - 1);
    }
  }

  lemma {:induction false} SigTextAppend(sigs: seq<Siger>, s: Siger)
    ensures SigText(sigs + [s]) == SigText(sigs) + s.qb64
  {
    if sigs == [] {
      assert [s][1..] == [] && SigText([s]) == s.qb64 + "";
    } else {
      assert (sigs + [s])[1..] == sigs[1..] + [s];
      SigTextAppend(sigs[1..], s);
    }
  }

  function Assemble(serder: Serder, said: string, sigs: seq<Siger>): Result<SignedEvent> {
    var code :- CodeFor(serder, ControllerIdxSigs);
    var counter :- CounterText(code, |sigs|);
    Ok(SignedEvent(said, serder.raw, SigText(sigs), serder.raw + (counter + SigText(sigs))))
  }

  /** Size, SAID, signatures, counter: from a draft to the event that is sent. */
  function Finish(c: Suite, kr: Keyring, sad: Json, signers: seq<Signer>): Result<SignedEvent>
    requires sad.Obj?
  {
    var built :- Build(c, sad);
    var sigs :- SignFirst(kr, signers, built.0.raw, |signers|);
    Assemble(built.0, built.1, sigs)
  }

  lemma {:induction false} OneEach(kr: Keyring, signers: seq<Signer>, message: string, n: nat)
    requires n <= |signers|
    ensures SignFirst(kr, signers, message, n).Ok? ==> |SignFirst(kr, signers, message, n).value| == n
  {
    if n > 0 {
      OneEach(kr, signers, message, n - 1);
    }
  }

  method FinishEvent(c: Suite, kr: Keyring, sad: Json, signers: seq<Signer>) returns (r: Result<SignedEvent>)
    requires sad.Obj?
    ensures r == Finish(c, kr, sad, signers)
  {
    hide ComputeSaid, FixVersionString, New, ComputeSaidFor, NewFor;
    var doc := new Document(sad);
    FixVersion(doc);
    UsualSaid(c, doc.value);
    var computed := doc.FillSaid(c, "d", "E", JsonKind);
    if computed.Err? {
      return Err(computed.error);
    }
    var said := computed.value;
    UsualSerder(c, doc.value);
    var made := NewSerder(c, JsonKind, doc.value);
    var serder := made.value; // JSON rendering cannot fail
    var bytes := SignWithAll(kr, signers, serder.raw);
    if bytes.Err? {
      return Err(bytes.error);
    }
    OneEach(kr, signers, serder.raw, |signers|);
    var code := CodeFor(serder, ControllerIdxSigs);
    if code.Err? {
      return Err(code.error);
    }
    var counter := CounterText(code.value, |signers|);
    if counter.Err? {
      return Err(counter.error);
    }
    var composed := serder.raw;
    composed := composed + counter.value;
    composed := composed + bytes.value;
    assert composed == serder.raw + (counter.value + bytes.value);
    r := Ok(SignedEvent(said, serder.raw, bytes.value, composed));
  }

  // ---------- the state of an identifier ----------

  /** Everything a `Hab` holds. */
  datatype Habitat = Habitat(
    name: string, prefix: string, signers: seq<Signer>, nextSigners: seq<Signer>, salt: string,
    transferable: bool, code: string, lastSaid: string, sn: nat, keyGen: nat, signerGen: nat, nextGen: nat,
    backerThreshold: nat, backers: seq<string>)

  /** What is kept of it, all but the salt. */
  datatype HabState = HabState(
    name: string, prefix: string, code: string, transferable: bool,
    signerGen: nat, signerCount: nat, nextGen: nat, nextCount: nat, keyGen: nat,
    lastSaid: string, sn: nat, backerThreshold: nat, backers: seq<string>)

  function StateOf(h: Habitat): HabState {
    HabState(h.name, h.prefix, h.code, h.transferable, h.signerGen, |h.signers|, h.nextGen, |h.nextSigners|, h.keyGen,
             h.lastSaid, h.sn, h.backerThreshold, h.backers)
  }

  function NumeralOf(n: nat): Numeral {
    var s := Format(n, 10);
    FormatValue(n, 10);
    assert IsNumeral(s) by {
      forall ch | ch in s ensures IsNumeralChar(ch) { assert DigitValue(ch, 10).Some?; }
    }
    s
  }

  /** The record stored beside the inception, field for field. */
  function HabRecord(s: HabState): Json {
    Obj([
      Field("name", Str(s.name)), Field("prefix", Str(s.prefix)), Field("code", Str(s.code)),
      Field("transferable", Bool(s.transferable)),
      Field("signer_gen", Number(NumeralOf(s.signerGen))), Field("signer_count", Number(NumeralOf(s.signerCount))),
      Field("next_gen", Number(NumeralOf(s.nextGen))), Field("next_count", Number(NumeralOf(s.nextCount))),
      Field("key_gen", Number(NumeralOf(s.keyGen))), Field("last_said", Str(s.lastSaid)),
      Field("sn", Number(NumeralOf(s.sn))),
      Field("backer_threshold", Number(NumeralOf(s.backerThreshold))), Field("backers", Strings(s.backers))])
  }

  lemma SameNumeral(m: nat, n: nat)
    requires NumeralOf(m) == NumeralOf(n)
    ensures m == n
  {
    FormatValue(m, 10);
    FormatValue(n, 10);
  }

  lemma SameStrings(xs: seq<string>, ys: seq<string>)
    requires Strings(xs) == Strings(ys)
    ensures xs == ys
  {
    var a, b := Strings(xs).items, Strings(ys).items;
    forall i | 0 <= i < |xs| ensures xs[i] == ys[i] {
      assert a[i] == b[i];
    }
  }

  /** The stored record is all it takes, with the salt: no two states have one record. */
  lemma RecordDeterminesState(s: HabState, t: HabState)
    requires Print(HabRecord(s)) == Print(HabRecord(t))
    ensures s == t
  {
    PrintInjective(HabRecord(s), HabRecord(t));
    hide Print, NumeralOf, Strings;
    var a, b := HabRecord(s).fields, HabRecord(t).fields;
    assert a[0] == b[0] && a[1] == b[1] && a[2] == b[2] && a[3] == b[3] && a[4] == b[4] && a[5] == b[5] && a[6] == b[6];
    assert a[7] == b[7] && a[8] == b[8] && a[9] == b[9] && a[10] == b[10] && a[11] == b[11] && a[12] == b[12];
    SameNumeral(s.signerGen, t.signerGen);
    SameNumeral(s.signerCount, t.signerCount);
    SameNumeral(s.nextGen, t.nextGen);
    SameNumeral(s.nextCount, t.nextCount);
    SameNumeral(s.keyGen, t.keyGen);
    SameNumeral(s.sn, t.sn);
    SameNumeral(s.backerThreshold, t.backerThreshold);
    SameStrings(s.backers, t.backers);
  }

  lemma {:induction false} DeriveLength(kr: Keyring, salt: string, code: string, transferable: bool, generation: nat,
                                        count: nat)
    ensures Derive(kr, salt, code, transferable, generation, count).Ok? ==>
      |Derive(kr, salt, code, transferable, generation, count).value| == count
  {
    if count > 0 {
      DeriveLength(kr, salt, code, transferable, generation, count - 1);
    }
  }

  function Resumed(kr: Keyring, s: HabState, salt: string): Result<Habitat> {
    if !kr.isSalt(salt) then Err(Crypto)
    else
      var signers :- Derive(kr, salt, s.code, s.transferable, s.signerGen, s.signerCount);
      var next :- Derive(kr, salt, s.code, s.transferable, s.nextGen, s.nextCount);
      Ok(Habitat(s.name, s.prefix, signers, next, salt, s.transferable, s.code, s.lastSaid, s.sn,
                 s.keyGen, s.signerGen, s.nextGen, s.backerThreshold, s.backers))
  }

  /** A first event and the identifier it makes, before anything is stored. */
  function InceptionOutcome(c: Suite, kr: Keyring, name: string, cfg: InceptionConfig): Result<(Habitat, SignedEvent)> {
    var salt :- SaltOf(kr, cfg.salt);
    var signers :- Derive(kr, salt, cfg.code, cfg.transferable, 0, cfg.count);
    var next :- Derive(kr, salt, cfg.code, cfg.transferable, 1, cfg.nextCount);
    var e :- Finish(c, kr, InceptionDraft(cfg, KeysOf(signers), DigestsOf(c, next)), signers);
    Ok((Habitat(name, e.said, signers, next, salt, cfg.transferable, cfg.code, e.said, 0, 2, 0, 1,
                cfg.backerThreshold, cfg.backers), e))
  }

  /** `incept_inner`; without a store, `commits` is true. */
  function Incepted(c: Suite, kr: Keyring, name: string, cfg: InceptionConfig, commits: bool): Result<(Habitat,
                    SignedEvent)> {
    var made :- InceptionOutcome(c, kr, name, cfg);
    if commits then Ok(made) else Err(Database)
  }

  /** A rotation event and the next signers it commits to. */
  function RotationOutcome(c: Suite, kr: Keyring, h: Habitat, cfg: RotationConfig): Result<(SignedEvent, seq<Signer>)> {
    var next :- Derive(kr, h.salt, h.code, h.transferable, h.keyGen + 1, cfg.nextCount);
    var e :- Finish(c, kr, RotationDraft(h, cfg, KeysOf(h.nextSigners), DigestsOf(c, next)), h.nextSigners);
    Ok((e, next))
  }

  /** The pre-rotated keys become the signing keys; the counter skips one generation. */
  function Installed(h: Habitat, said: string, next: seq<Signer>, cfg: RotationConfig): Habitat {
    h.(signers := h.nextSigners, nextSigners := next, lastSaid := said, sn := h.sn + 1,
       keyGen := h.keyGen + 2, signerGen := h.nextGen, nextGen := h.keyGen + 1,
       backers := UpdateBackers(h.backers, cfg.backersRemove, cfg.backersAdd))
  }

  /** `rotate_inner`: the next signers are taken out first, and an error does not put them back. */
  function Rotated(c: Suite, kr: Keyring, h: Habitat, cfg: RotationConfig, commits: bool): (Habitat,
                   Result<SignedEvent>) {
    if !h.transferable then (h, Err(Config))
    else
      match RotationOutcome(c, kr, h, cfg)
      case Err(error) => (h.(nextSigners := []), Err(error))
      case Ok((e, next)) =>
        if !commits then (h.(nextSigners := []), Err(Database))
        else (Installed(h, e.said, next, cfg), Ok(e))
  }

  function Interacted(c: Suite, kr: Keyring, h: Habitat, anchors: seq<Json>, commits: bool): (Habitat,
                      Result<SignedEvent>) {
    match Finish(c, kr, InteractionDraft(h, anchors), h.signers)
    case Err(error) => (h, Err(error))
    case Ok(e) => if !commits then (h, Err(Database)) else (h.(lastSaid := e.said, sn := h.sn + 1), Ok(e))
  }

  method MakeRotation(c: Suite, kr: Keyring, h: Habitat, cfg: RotationConfig)
    returns (r: Result<(SignedEvent, seq<Signer>)>)
    ensures r == RotationOutcome(c, kr, h, cfg)
  {
    hide Finish, Derive, RotationDraft;
    var next := DeriveSigners(kr, h.salt, h.code, h.transferable, h.keyGen + 1, cfg.nextCount);
    if next.Err? {
      return Err(next.error);
    }
    var e := FinishEvent(c, kr, RotationDraft(h, cfg, KeysOf(h.nextSigners), DigestsOf(c, next.value)), h.nextSigners);
    if e.Err? {
      return Err(e.error);
    }
    r := Ok((e.value, next.value));
  }

  // ---------- the object ----------

  class Hab {
    const name: string
    const prefix: string
    const salt: string
    const transferable: bool
    const code: string
    const backerThreshold: nat
    var signers: seq<Signer>
    var nextSigners: seq<Signer>
    var lastSaid: string
    var sn: nat
    var keyGen: nat
    var signerGen: nat
    var nextGen: nat
    var backers: seq<string>

    function View(): Habitat
      reads this
    {
      Habitat(name, prefix, signers, nextSigners, salt, transferable, code, lastSaid, sn, keyGen, signerGen, nextGen,
              backerThreshold, backers)
    }

    constructor (h: Habitat)
      ensures View() == h
    {
      name, prefix, salt, transferable, code, backerThreshold :=
        h.name, h.prefix, h.salt, h.transferable, h.code, h.backerThreshold;
      signers, nextSigners, lastSaid, sn, backers := h.signers, h.nextSigners, h.lastSaid, h.sn, h.backers;
      keyGen, signerGen, nextGen := h.keyGen, h.signerGen, h.nextGen;
    }

    static method Incept(c: Suite, kr: Keyring, newName: string, cfg: InceptionConfig, store: LmdbStore, commits: bool)
      returns (r: Result<(Hab, SignedEvent)>)
      modifies store
      ensures var made := Incepted(c, kr, newName, cfg, commits);
        if made.Err? then r == Err(made.error) && store.Snapshot() == old(store.Snapshot())
        else
          && r.Ok? && fresh(r.value.0) && r.value.0.View() == made.value.0 && r.value.1 == made.value.1
          && store.Snapshot() ==
               EventStored(old(store.Snapshot()), made.value.1.said, made.value.1.raw, made.value.0.prefix, 0,
                           Some(made.value.1.signatures))
               .(habs := old(store.habs)[newName := Print(HabRecord(StateOf(made.value.0)))])
    {
      hide Finish, Derive, InceptionDraft, EventStored, HabRecord, Print;
      var chosen := SaltOf(kr, cfg.salt);
      if chosen.Err? {
        return Err(chosen.error);
      }
      var salt := chosen.value;
      var signers := DeriveSigners(kr, salt, cfg.code, cfg.transferable, 0, cfg.count);
      if signers.Err? {
        return Err(signers.error);
      }
      var next := DeriveSigners(kr, salt, cfg.code, cfg.transferable, 1, cfg.nextCount);
      if next.Err? {
        return Err(next.error);
      }
      var e := FinishEvent(c, kr, InceptionDraft(cfg, KeysOf(signers.value), DigestsOf(c, next.value)), signers.value);
      if e.Err? {
        return Err(e.error);
      }
      var h := Habitat(newName, e.value.said, signers.value, next.value, salt, cfg.transferable, cfg.code,
                       e.value.said, 0, 2, 0, 1, cfg.backerThreshold, cfg.backers);
      DeriveLength(kr, salt, cfg.code, cfg.transferable, 0, cfg.count);
      DeriveLength(kr, salt, cfg.code, cfg.transferable, 1, cfg.nextCount);
      var record := HabRecord(
        HabState(newName, e.value.said, cfg.code, cfg.transferable, 0, cfg.count, 1, cfg.nextCount, 2, e.value.said, 0,
                 cfg.backerThreshold, cfg.backers));
      var stored := store.StoreEventWithHab(e.value.said, e.value.raw, e.value.said, 0, Some(e.value.signatures),
                                            newName, Print(record), commits);
      if stored.Err? {
        return Err(stored.error);
      }
      var hab := new Hab(h);
      r := Ok((hab, e.value));
    }

    method Rotate(c: Suite, kr: Keyring, cfg: RotationConfig, store: LmdbStore, commits: bool)
      returns (r: Result<SignedEvent>)
      modifies this, store
      ensures View() == Rotated(c, kr, old(View()), cfg, commits).0 && r == Rotated(c, kr, old(View()), cfg, commits).1
      ensures store.Snapshot() ==
        if r.Err? then old(store.Snapshot())
        else EventStored(old(store.Snapshot()), r.value.said, r.value.raw, prefix, sn, Some(r.value.signatures))
    {
      hide RotationOutcome, EventStored, Installed;
      if !transferable {
        return Err(Config);
      }
      var newSn, before := sn + 1, View();
      var newSigners := nextSigners;
      nextSigners := [];
      var made := MakeRotation(c, kr, before, cfg);
      if made.Err? {
        return Err(made.error);
      }
      var (e, next) := made.value;
      var stored := store.StoreEvent(e.said, e.raw, prefix, newSn, Some(e.signatures), commits);
      if stored.Err? {
        return Err(stored.error);
      }
      Install(newSigners, next, e.said, newSn, cfg);
      r := Ok(e);
    }

    method Install(newSigners: seq<Signer>, next: seq<Signer>, said: string, newSn: nat, cfg: RotationConfig)
      requires newSn == sn + 1
      modifies this
      ensures View() == Installed(old(View()).(nextSigners := newSigners), said, next, cfg) && sn == newSn
    {
      hide UpdateBackers;
      signers := newSigners;
      nextSigners := next;
      lastSaid := said;
      sn := newSn;
      signerGen := nextGen;
      nextGen := keyGen + 1;
      keyGen := keyGen + 2;
      backers := ComputeBackers(backers, cfg.backersRemove, cfg.backersAdd);
    }

    method Interact(c: Suite, kr: Keyring, anchors: seq<Json>, store: LmdbStore, commits: bool)
      returns (r: Result<SignedEvent>)
      modifies this, store
      ensures View() == Interacted(c, kr, old(View()), anchors, commits).0
      ensures r == Interacted(c, kr, old(View()), anchors, commits).1
      ensures store.Snapshot() ==
        if r.Err? then old(store.Snapshot())
        else EventStored(old(store.Snapshot()), r.value.said, r.value.raw, prefix, sn, Some(r.value.signatures))
    {
      hide Finish, InteractionDraft, EventStored;
      var newSn := sn + 1;
      var e := FinishEvent(c, kr, InteractionDraft(View(), anchors), signers);
      if e.Err? {
        return Err(e.error);
      }
      var stored := store.StoreEvent(e.value.said, e.value.raw, prefix, newSn, Some(e.value.signatures), commits);
      if stored.Err? {
        return Err(stored.error);
      }
      lastSaid := e.value.said;
      sn := newSn;
      r := Ok(e.value);
    }

    method State() returns (s: HabState)
      ensures s == StateOf(View())
    {
      s := HabState(name, prefix, code, transferable, signerGen, |signers|, nextGen, |nextSigners|, keyGen,
                    lastSaid, sn, backerThreshold, backers);
    }

    static method Resume(kr: Keyring, s: HabState, salt: string) returns (r: Result<Hab>)
      ensures var back := Resumed(kr, s, salt);
        if back.Err? then r == Err(back.error) else r.Ok? && fresh(r.value) && r.value.View() == back.value
    {
      hide Derive;
      if !kr.isSalt(salt) {
        return Err(Crypto);
      }
      var signers := DeriveSigners(kr, salt, s.code, s.transferable, s.signerGen, s.signerCount);
      if signers.Err? {
        return Err(signers.error);
      }
      var next := DeriveSigners(kr, salt, s.code, s.transferable, s.nextGen, s.nextCount);
      if next.Err? {
        return Err(next.error);
      }
      var hab := new Hab(
        Habitat(s.name, s.prefix, signers.value, next.value, salt, s.transferable, s.code, s.lastSaid, s.sn, s.keyGen,
                s.signerGen, s.nextGen, s.backerThreshold, s.backers));
      r := Ok(hab);
    }
  }
}
