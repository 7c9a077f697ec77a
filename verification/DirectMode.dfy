/** Direct mode: one party's verified view of every identifier that sends it messages. */
module DirectMode {
  import opened Wrappers
  import opened JsonValues
  import opened Primitives
  import opened Versions
  import opened Parsers
  import opened KeyStates
  import opened Signatures
  import opened Kevers
  import opened Histories
  import opened Stores
  import Composers

  datatype ProcessResult = ProcessResult(prefix: string, sn: nat, said: string, ilk: string)

  // ---------- attachments ----------

  function ControllerSigsOf(atts: seq<Attachment>): seq<Siger> {
    if atts == [] then []
    else (if atts[0].ControllerSigs? then atts[0].sigs else []) + ControllerSigsOf(atts[1..])
  }

  function ReceiptsOf(atts: seq<Attachment>): seq<Couple> {
    if atts == [] then []
    else (if atts[0].ReceiptCouples? then atts[0].receipts else []) + ReceiptsOf(atts[1..])
  }

  predicate HasUnknown(atts: seq<Attachment>) {
    exists a :: a in atts && a.Unknown?
  }

  function CoupleTexts(couples: seq<Couple>): string {
    if couples == [] then "" else couples[0].0 + couples[0].1 + CoupleTexts(couples[1..])
  }

  /** The parts that direct mode hands to the verifier: the body is taken out of its message. */
  function EntryOf(m: ParsedMessage): Entry {
    Entry(m.serder.raw, m.serder.sad, ControllerSigsOf(m.attachments), JsonKind)
  }

  /** The signature bytes to store, if any. */
  function SigBytes(m: ParsedMessage): Option<string> {
    var text := Composers.SigText(ControllerSigsOf(m.attachments));
    if text == "" then None else Some(text)
  }

  lemma {:induction false} SigsInOrder(a: seq<Attachment>, b: seq<Attachment>)
    ensures ControllerSigsOf(a + b) == ControllerSigsOf(a) + ControllerSigsOf(b)
  {
    if a == [] {
      assert [] + b == b;
    } else {
      assert (a + b)[0] == a[0] && (a + b)[1..] == a[1..] + b;
      SigsInOrder(a[1..], b);
      var first := if a[0].ControllerSigs? then a[0].sigs else [];
      assert ControllerSigsOf(a + b) == first + ControllerSigsOf(a[1..] + b);
    }
  }

  lemma {:induction false} ReceiptsInOrder(a: seq<Attachment>, b: seq<Attachment>)
    ensures ReceiptsOf(a + b) == ReceiptsOf(a) + ReceiptsOf(b)
  {
    if a == [] {
      assert [] + b == b;
    } else {
      assert (a + b)[0] == a[0] && (a + b)[1..] == a[1..] + b;
      ReceiptsInOrder(a[1..], b);
      var first := if a[0].ReceiptCouples? then a[0].receipts else [];
      assert ReceiptsOf(a + b) == first + ReceiptsOf(a[1..] + b);
    }
  }

  /** Nothing attached is lost or reordered, however the attachments are divided into groups. */
  lemma GatheredInOrder(a: seq<Attachment>, b: seq<Attachment>, sigs: seq<Siger>, receipts: seq<Couple>)
    ensures ControllerSigsOf(a + b) == ControllerSigsOf(a) + ControllerSigsOf(b)
    ensures ReceiptsOf(a + b) == ReceiptsOf(a) + ReceiptsOf(b)
    ensures HasUnknown(a + b) <==> HasUnknown(a) || HasUnknown(b)
    ensures ControllerSigsOf([ControllerSigs(sigs)]) == sigs && ReceiptsOf([ControllerSigs(sigs)]) == []
    ensures ReceiptsOf([ReceiptCouples(receipts)]) == receipts && ControllerSigsOf([ReceiptCouples(receipts)]) == []
  {
    SigsInOrder(a, b);
    ReceiptsInOrder(a, b);
    assert [ControllerSigs(sigs)][1..] == [] && [ReceiptCouples(receipts)][1..] == [];
  }

  method CollectAttachments(atts: seq<Attachment>) returns (sigs: seq<Siger>, receipts: seq<Couple>, unknown: bool)
    ensures sigs == ControllerSigsOf(atts) && receipts == ReceiptsOf(atts) && unknown == HasUnknown(atts)
  {
    sigs, receipts, unknown := [], [], false;
    var i := 0;
    assert atts[0..] == atts;
    while i < |atts|
      invariant 0 <= i <= |atts|
      invariant sigs + ControllerSigsOf(atts[i..]) == ControllerSigsOf(atts)
      invariant receipts + ReceiptsOf(atts[i..]) == ReceiptsOf(atts)
      invariant unknown <==> exists k :: 0 <= k < i && atts[k].Unknown?
    {
      ghost var s, r := ControllerSigsOf(atts[i + 1..]), ReceiptsOf(atts[i + 1..]);
      assert atts[i..][1..] == atts[i + 1..];
      match atts[i] {
      case ControllerSigs(more) =>
        assert sigs + (more + s) == (sigs + more) + s && receipts + ([] + r) == receipts + r;
        sigs := sigs + more;
      case ReceiptCouples(more) =>
        assert receipts + (more + r) == (receipts + more) + r && sigs + ([] + s) == sigs + s;
        receipts := receipts + more;
      case Unknown(_, _, _) =>
        assert sigs + ([] + s) == sigs + s && receipts + ([] + r) == receipts + r;
        unknown := true;
      case _ =>
        assert sigs + ([] + s) == sigs + s && receipts + ([] + r) == receipts + r;
      }
      i := i + 1;
    }
    assert sigs + [] == sigs && receipts + [] == receipts;
  }

  // ---------- deciding a message ----------

  /** What a message does once it has been found acceptable. */
  datatype Effect = Accept(st: KeyState) | Ignore | KeepReceipts | KeepBody

  function Witnessed(c: Suite, m: ParsedMessage, st: KeyState): Result<KeyState> {
    var _ :- VerifyReceipts(c, m.serder.raw, ReceiptsOf(m.attachments), st.backers, st.backerThreshold);
    Ok(st)
  }

  function AssessInception(c: Suite, kevers: map<string, KeyState>, prefix: string,
                           m: ParsedMessage): Result<KeyState> {
    if prefix in kevers then Err(AlreadyExists)
    else
      var verfers :- VerfersOf(c, m.serder.sad);
      var st :- Incept(c, EntryOf(m), verfers);
      Witnessed(c, m, st)
  }

  function AssessUpdate(c: Suite, st: KeyState, m: ParsedMessage): Result<KeyState> {
    var next :- NextState(c, st, EntryOf(m), Validation);
    Witnessed(c, m, next)
  }

  function Header(sad: Json): Result<ProcessResult> {
    var prefix :- OkOr(GetStr(sad, "i"), MissingField("i"));
    var sn :- OkOr(SnOf(sad), MissingField("s"));
    var said :- OkOr(GetStr(sad, "d"), MissingField("d"));
    var ilk :- OkOr(GetStr(sad, "t"), MissingField("t"));
    Ok(ProcessResult(prefix, sn, said, ilk))
  }

  function Assess(c: Suite, kevers: map<string, KeyState>, m: ParsedMessage): Result<(ProcessResult, Effect)> {
    var p :- Header(m.serder.sad);
    var _ :- Need(!HasUnknown(m.attachments), ParseError);
    if p.ilk == "icp" || p.ilk == "dip" then
      var st :- AssessInception(c, kevers, p.prefix, m);
      Ok((p, Accept(st)))
    else if p.ilk == "rot" || p.ilk == "ixn" || p.ilk == "drt" then
      if p.prefix in kevers then
        var st :- AssessUpdate(c, kevers[p.prefix], m);
        Ok((p, Accept(st)))
      else Ok((p, Ignore))
    else if p.ilk == "rct" then Ok((p, if ReceiptsOf(m.attachments) == [] then Ignore else KeepReceipts))
    else Ok((p, KeepBody))
  }

  // ---------- one step ----------

  datatype Verifier = Verifier(kevers: map<string, KeyState>, tables: Tables)

  const EMPTY_VERIFIER := Verifier(map[], EMPTY_TABLES)

  function Commit(v: Verifier, m: ParsedMessage, p: ProcessResult, effect: Effect): Verifier {
    match effect
    case Accept(st) =>
      Verifier(v.kevers[p.prefix := st], EventStored(v.tables, p.said, m.serder.raw, p.prefix, p.sn, SigBytes(m)))
    case Ignore => v
    case KeepReceipts =>
      v.(tables := v.tables.(rcts := v.tables.rcts[p.said := CoupleTexts(ReceiptsOf(m.attachments))]))
    case KeepBody => v.(tables := v.tables.(evts := v.tables.evts[p.said := m.serder.raw]))
  }

  /** `process_parsed`; `commits` says whether the store's transaction goes through. */
  function Process(c: Suite, v: Verifier, m: ParsedMessage, commits: bool): (r: (Verifier, Result<ProcessResult>))
    ensures r.1.Err? ==> r.0 == v
  {
    match Assess(c, v.kevers, m)
    case Err(error) => (v, Err(error))
    case Ok((p, effect)) =>
      if effect != Ignore && !commits then (v, Err(Database)) else (Commit(v, m, p, effect), Ok(p))
  }

  /** The identifiers' key states, kept in step with the store. */
  class DirectVerifier {
    var kevers: map<string, KeyState>
    const store: LmdbStore

    ghost predicate Valid()
      reads this
    {
      forall p :: p in kevers ==> kevers[p].threshold.Valid()
    }

    function State(): Verifier
      reads this, store
    {
      Verifier(kevers, store.Snapshot())
    }

    constructor (store: LmdbStore)
      ensures Valid() && this.store == store && kevers == map[]
    {
      this.store := store;
      kevers := map[];
    }

    method AssessMessage(c: Suite, m: ParsedMessage) returns (r: Result<(ProcessResult, Effect)>)
      requires Valid()
      ensures r == Assess(c, kevers, m)
      ensures r.Ok? && r.value.1.Accept? ==> r.value.1.st.threshold.Valid()
    {
      var header := Header(m.serder.sad);
      if header.Err? {
        return Err(header.error);
      }
      var p := header.value;
      hide Header, NextState, Incept, VerifyReceipts, VerfersOf, HasUnknown, ReceiptsOf, ControllerSigsOf;
      var sigs, receipts, unknown := CollectAttachments(m.attachments);
      if unknown {
        return Err(ParseError);
      }
      var e := Entry(m.serder.raw, m.serder.sad, sigs, JsonKind);
      var proposed: Result<KeyState>;
      if p.ilk == "icp" || p.ilk == "dip" {
        if p.prefix in kevers {
          return Err(AlreadyExists);
        }
        var verfers := VerfersOf(c, m.serder.sad);
        if verfers.Err? {
          return Err(verfers.error);
        }
        proposed := CheckedIncept(c, e, verfers.value);
        InceptThreshold(c, e, verfers.value);
      } else if p.ilk == "rot" || p.ilk == "ixn" || p.ilk == "drt" {
        if p.prefix !in kevers {
          return Ok((p, Ignore));
        }
        proposed := CheckedUpdate(c, kevers[p.prefix], e, Validation);
        UpdateThreshold(c, kevers[p.prefix], e, Validation);
      } else {
        return Ok((p, if p.ilk != "rct" then KeepBody else if receipts == [] then Ignore else KeepReceipts));
      }
      if proposed.Err? {
        return Err(proposed.error);
      }
      var st := proposed.value;
      var quorum := VerifyWitnessReceiptsStatic(c, m.serder.raw, receipts, st.backers, st.backerThreshold);
      r := if quorum.Err? then Err(quorum.error) else Ok((p, Accept(st)));
    }

    /** Persist first, then take the new state: a failing store leaves everything as it was. */
    method ProcessParsed(c: Suite, m: ParsedMessage, commits: bool) returns (r: Result<ProcessResult>)
      requires Valid()
      modifies this, store
      ensures Valid()
      ensures State() == Process(c, old(State()), m, commits).0 && r == Process(c, old(State()), m, commits).1
    {
      var assessed := AssessMessage(c, m);
      hide Assess;
      match assessed
      case Err(error) =>
        r := Err(error);
      case Ok((p, effect)) =>
        match effect
        case Ignore =>
          r := Ok(p);
        case Accept(st) =>
          var stored := store.StoreEvent(p.said, m.serder.raw, p.prefix, p.sn, SigBytes(m), commits);
          if stored.Err? {
            return Err(stored.error);
          }
          kevers := kevers[p.prefix := st];
          r := Ok(p);
        case KeepReceipts =>
          var stored := store.PutReceipts(p.said, CoupleTexts(ReceiptsOf(m.attachments)), commits);
          r := if stored.Err? then Err(stored.error) else Ok(p);
        case KeepBody =>
          var stored := store.PutEvent(p.said, m.serder.raw, commits);
          r := if stored.Err? then Err(stored.error) else Ok(p);
    }
  }
}
