/** The key event verifier of one identifier. */
module Kevers {
  import opened Wrappers
  import opened Numerals
  import opened JsonValues
  import opened Primitives
  import opened Versions
  import opened Saids
  import opened Events
  import opened KeyStates
  import opened Signatures
  import opened Delegations

  /**
   * One message as the verifier sees it: its bytes, the value they decode to, its signatures, and
   * the serialization its SAID is checked under. That is the message's own, except that a body handed
   * over apart from its message (`new_from_parts`, `verify_update_owned`) is checked under JSON.
   */
  datatype Entry = Entry(raw: string, sad: Json, sigs: seq<Siger>, kind: Kind)

  /** `Serder::verify_said`. */
  function EventSaid(c: Suite, e: Entry): Result<()> {
    VerifySaidFor(c, e.sad, "d", "E", e.kind)
  }

  /** Under JSON that is the SAID of the compact rendering. */
  lemma JsonSaid(c: Suite, e: Entry)
    requires e.kind.JsonKind?
    ensures EventSaid(c, e) == VerifySaid(c, e.sad)
  {
    UsualSaid(c, e.sad);
  }

  // ---------- inception ----------

  function AsKeys(c: Suite, keys: seq<string>): Result<seq<string>> {
    if forall k :: k in keys ==> c.isKey(k) then Ok(keys) else Err(Crypto)
  }

  function StringsIn(items: seq<Json>): seq<string> {
    if items == [] then []
    else (if items[0].Str? then [items[0].s] else []) + StringsIn(items[1..])
  }

  /** `verfers_from_serder`: the well-formed keys named in `k`. */
  function VerfersOf(c: Suite, sad: Json): Result<seq<string>> {
    match Get(sad, "k")
    case Some(Arr(items)) => AsKeys(c, StringsIn(items))
    case _ => Ok([])
  }

  /** A digest prefix must be the event's SAID, a key prefix the first key. */
  function ValidatePrefix(c: Suite, e: InceptionEvent): Result<()> {
    if c.digestCode(e.prefix).Some? then Need(e.prefix == e.said, InvalidPrefix)
    else if c.isKey(e.prefix) then Need(e.keys != [] && e.prefix == e.keys[0], InvalidPrefix)
    else Err(InvalidPrefix)
  }

  /** The checks that plain and delegated inception share, up to and including the signatures. */
  function CheckInception(c: Suite, e: Entry, ilk: string, verfers: seq<string>): Result<InceptionEvent> {
    var t :- OkOr(GetStr(e.sad, "t"), MissingField("t"));
    var _ :- Need(t == ilk, UnexpectedIlk);
    var _ :- EventSaid(c, e);
    var icp :- InceptionOf(e.sad);
    var _ :- Need(icp.keys == verfers, Validation);
    var _ :- VerifySigs(c, e.raw, e.sigs, verfers, icp.threshold);
    Ok(icp)
  }

  /** `Kever::new` and `Kever::new_from_parts`. */
  function Incept(c: Suite, e: Entry, verfers: seq<string>): Result<KeyState> {
    var icp :- CheckInception(c, e, "icp", verfers);
    var _ :- ValidatePrefix(c, icp);
    FromInception(icp)
  }

  /** A delegated inception up to, but not including, the delegator's anchor. */
  function CheckDelegatedInception(c: Suite, e: Entry, verfers: seq<string>): Result<DelegatedInceptionEvent> {
    var icp :- CheckInception(c, e, "dip", verfers);
    var di :- StrField(e.sad, "di");
    var _ :- Need(icp.prefix == icp.said, InvalidPrefix);
    Ok(DelegatedInceptionEvent(icp, di))
  }

  /** `Kever::new_delegated`. */
  function InceptDelegated(c: Suite, e: Entry, verfers: seq<string>, proof: Proof,
                           source: AnchorSource): Result<KeyState> {
    var dip :- CheckDelegatedInception(c, e, verfers);
    var _ :- VerifyDelegation(dip.base.prefix, 0, dip.base.said, dip.delegator, proof, source);
    FromDelegatedInception(dip)
  }

  // ---------- later events ----------

  /** SAID, ilk and sequence number, the checks every later event starts with. */
  function CheckNext(c: Suite, st: KeyState, e: Entry, badSn: Error): Result<string> {
    var _ :- EventSaid(c, e);
    var ilk :- OkOr(GetStr(e.sad, "t"), MissingField("t"));
    var s :- OkOr(GetStr(e.sad, "s"), MissingField("s"));
    var sn :- OkOr(Parse(s, 16, U64), badSn);
    var _ :- Need(sn == st.sn + 1, OutOfOrder(st.sn + 1, sn));
    Ok(ilk)
  }

  /** A rotation is signed by the keys it installs. */
  function CheckRotation(c: Suite, e: Entry): Result<RotationEvent> {
    var rot :- RotationOf(e.sad);
    var keys :- AsKeys(c, rot.keys);
    var _ :- VerifySigs(c, e.raw, e.sigs, keys, rot.threshold);
    Ok(rot)
  }

  /** An interaction is signed by the keys in force. */
  function CheckInteraction(c: Suite, st: KeyState, e: Entry): Result<InteractionEvent> {
    var keys :- AsKeys(c, st.keys);
    var _ :- VerifySigs(c, e.raw, e.sigs, keys, st.threshold);
    InteractionOf(e.sad)
  }

  /**
   * `update`, `verify_update` and `verify_update_owned`, which differ only in the error for an
   * unparsable sequence number.
   */
  function NextState(c: Suite, st: KeyState, e: Entry, badSn: Error): Result<KeyState> {
    var ilk :- CheckNext(c, st, e, badSn);
    if ilk == "rot" then
      var _ :- Need(!st.delegated, UnexpectedIlk);
      var rot :- CheckRotation(c, e);
      ApplyRotation(c, st, rot)
    else if ilk == "ixn" then
      var ixn :- CheckInteraction(c, st, e);
      ApplyInteraction(st, ixn)
    else Err(UnexpectedIlk)
  }

  /** A delegated rotation up to, but not including, the delegator's anchor. */
  function CheckDelegatedRotation(c: Suite, st: KeyState, e: Entry): Result<DelegatedRotationEvent> {
    var ilk :- CheckNext(c, st, e, MissingField("s"));
    var _ :- Need(ilk == "drt", UnexpectedIlk);
    var rot :- CheckRotation(c, e);
    var di :- StrField(e.sad, "di");
    Ok(DelegatedRotationEvent(rot, di))
  }

  /** `verify_update_delegated`. */
  function UpdateDelegated(c: Suite, st: KeyState, e: Entry, proof: Proof, source: AnchorSource): Result<KeyState> {
    var drt :- CheckDelegatedRotation(c, st, e);
    var _ :- VerifyDelegation(drt.base.prefix, st.sn + 1, drt.base.said, drt.delegator, proof, source);
    ApplyDelegatedRotation(c, st, drt)
  }

  // ---------- the stateful verifier ----------

  method CheckedIncept(c: Suite, e: Entry, verfers: seq<string>) returns (r: Result<KeyState>)
    ensures r == Incept(c, e, verfers)
  {
    var ilk := GetStr(e.sad, "t");
    if ilk.None? {
      return Err(MissingField("t"));
    }
    if ilk.value != "icp" {
      return Err(UnexpectedIlk);
    }
    var said := EventSaid(c, e);
    if said.Err? {
      return Err(said.error);
    }
    var icp := InceptionOf(e.sad);
    if icp.Err? {
      return Err(icp.error);
    }
    if icp.value.keys != verfers {
      return Err(Validation);
    }
    var sigs := VerifySigsStatic(c, e.raw, e.sigs, verfers, icp.value.threshold);
    if sigs.Err? {
      return Err(sigs.error);
    }
    var prefix := ValidatePrefix(c, icp.value);
    if prefix.Err? {
      return Err(prefix.error);
    }
    r := FromInception(icp.value);
  }

  method CheckedUpdate(c: Suite, st: KeyState, e: Entry, badSn: Error) returns (r: Result<KeyState>)
    requires st.threshold.Valid()
    ensures r == NextState(c, st, e, badSn)
  {
    var ilk := CheckNext(c, st, e, badSn);
    if ilk.Err? {
      return Err(ilk.error);
    }
    if ilk.value == "rot" {
      if st.delegated {
        return Err(UnexpectedIlk);
      }
      var rot := RotationOf(e.sad);
      if rot.Err? {
        return Err(rot.error);
      }
      var keys := AsKeys(c, rot.value.keys);
      if keys.Err? {
        return Err(keys.error);
      }
      var sigs := VerifySigsStatic(c, e.raw, e.sigs, keys.value, rot.value.threshold);
      if sigs.Err? {
        return Err(sigs.error);
      }
      r := RotateState(c, st, rot.value);
    } else if ilk.value == "ixn" {
      var keys := AsKeys(c, st.keys);
      if keys.Err? {
        return Err(keys.error);
      }
      var sigs := VerifySigsStatic(c, e.raw, e.sigs, keys.value, st.threshold);
      if sigs.Err? {
        return Err(sigs.error);
      }
      var ixn := InteractionOf(e.sad);
      if ixn.Err? {
        return Err(ixn.error);
      }
      r := ApplyInteraction(st, ixn.value);
    } else {
      r := Err(UnexpectedIlk);
    }
  }

  /** Accepted states carry thresholds the checked sum can evaluate. */
  lemma InceptThreshold(c: Suite, e: Entry, verfers: seq<string>)
    ensures Incept(c, e, verfers).Ok? ==> Incept(c, e, verfers).value.threshold.Valid()
  {
    hide EventSaid, VerifySigs, ValidatePrefix, InceptionOf;
  }

  lemma UpdateThreshold(c: Suite, st: KeyState, e: Entry, badSn: Error)
    requires st.threshold.Valid()
    ensures NextState(c, st, e, badSn).Ok? ==> NextState(c, st, e, badSn).value.threshold.Valid()
  {
    hide EventSaid, VerifySigs, RotationOf, InteractionOf, UpdateBackers, Committed, Parse;
  }

  class Kever {
    var state: KeyState
    var incepted: bool

    predicate Valid()
      reads this
    {
      state.threshold.Valid()
    }

    constructor (st: KeyState)
      requires st.threshold.Valid()
      ensures Valid() && state == st && incepted
    {
      state := st;
      incepted := true;
    }

    static method New(c: Suite, e: Entry, verfers: seq<string>) returns (r: Result<Kever>)
      ensures r.Ok? <==> Incept(c, e, verfers).Ok?
      ensures r.Ok? ==>
        fresh(r.value) && r.value.Valid() && r.value.incepted && r.value.state == Incept(c, e, verfers).value
      ensures r.Err? ==> r.error == Incept(c, e, verfers).error
    {
      var st := CheckedIncept(c, e, verfers);
      match st
      case Err(error) =>
        r := Err(error);
      case Ok(state) =>
        InceptThreshold(c, e, verfers);
        var kever := new Kever(state);
        r := Ok(kever);
    }

    /** `Kever::new_from_parts`, which checks the SAID under JSON. */
    static method NewFromParts(c: Suite, raw: string, sad: Json, sigs: seq<Siger>, verfers: seq<string>)
      returns (r: Result<Kever>)
      ensures var st := Incept(c, Entry(raw, sad, sigs, JsonKind), verfers);
        && (r.Ok? <==> st.Ok?)
        && (r.Ok? ==> fresh(r.value) && r.value.Valid() && r.value.incepted && r.value.state == st.value)
        && (r.Err? ==> r.error == st.error)
    {
      r := New(c, Entry(raw, sad, sigs, JsonKind), verfers);
    }

    /** Accept the next event in place; on any error the state is untouched. */
    method Update(c: Suite, e: Entry) returns (r: Result<()>)
      requires Valid()
      modifies this`state
      ensures Valid()
      ensures var next := if incepted then NextState(c, old(state), e, MissingField("s")) else Err(Validation);
        state == (if next.Ok? then next.value else old(state)) &&
        r == (if next.Ok? then Ok(()) else Err(next.error))
    {
      if !incepted {
        return Err(Validation);
      }
      var next := CheckedUpdate(c, state, e, MissingField("s"));
      UpdateThreshold(c, state, e, MissingField("s"));
      match next
      case Err(error) =>
        r := Err(error);
      case Ok(st) =>
        state := st;
        r := Ok(());
    }

    /** `verify_update`: propose the next state without taking it. */
    method VerifyUpdate(c: Suite, e: Entry) returns (r: Result<KeyState>)
      requires Valid()
      ensures r == if incepted then NextState(c, state, e, MissingField("s")) else Err(Validation)
    {
      if !incepted {
        return Err(Validation);
      }
      r := CheckedUpdate(c, state, e, MissingField("s"));
    }

    /** The same from a body apart from its message, whose SAID is checked under JSON. */
    method VerifyUpdateOwned(c: Suite, raw: string, sad: Json, sigs: seq<Siger>) returns (r: Result<KeyState>)
      requires Valid()
      ensures r ==
        if incepted then NextState(c, state, Entry(raw, sad, sigs, JsonKind), Validation) else Err(Validation)
    {
      if !incepted {
        return Err(Validation);
      }
      r := CheckedUpdate(c, state, Entry(raw, sad, sigs, JsonKind), Validation);
    }

    method ApplyVerifiedUpdate(st: KeyState)
      requires st.threshold.Valid()
      modifies this`state
      ensures state == st && Valid()
    {
      state := st;
    }
  }
}
