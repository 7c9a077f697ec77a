/** Whole key event logs: what every accepted sequence of events has in common. */
module Histories {
  import opened Wrappers
  import opened Numerals
  import opened JsonValues
  import opened Primitives
  import opened Events
  import opened KeyStates
  import opened Signatures
  import opened Delegations
  import opened Kevers

  // ---------- replaying a log ----------

  function EventKeys(sad: Json): seq<string> {
    match StrArrField(sad, "k")
    case Ok(keys) => keys
    case Err(_) => []
  }

  function EventDigests(sad: Json): seq<string> {
    match StrArrField(sad, "n")
    case Ok(digests) => digests
    case Err(_) => []
  }

  function Ilk(e: Entry): string {
    match GetStr(e.sad, "t")
    case Some(t) => t
    case None => ""
  }

  /** The sequence number a message states. */
  function SnOf(sad: Json): Option<nat> {
    match GetStr(sad, "s")
    case Some(s) => Parse(s, 16, U64)
    case None => None
  }

  /** Accepting a first event, plain or delegated; a delegated one still needs its anchor. */
  function Start(c: Suite, e: Entry): Result<KeyState> {
    if Ilk(e) == "dip" then
      var dip :- CheckDelegatedInception(c, e, EventKeys(e.sad));
      FromDelegatedInception(dip)
    else Incept(c, e, EventKeys(e.sad))
  }

  /** Accepting a later event, plain or delegated; a delegated one still needs its anchor. */
  function Advance(c: Suite, st: KeyState, e: Entry): Result<KeyState> {
    if Ilk(e) == "drt" then
      var drt :- CheckDelegatedRotation(c, st, e);
      ApplyDelegatedRotation(c, st, drt)
    else NextState(c, st, e, Validation)
  }

  function Replay(c: Suite, es: seq<Entry>): Result<KeyState> {
    if es == [] then Err(NotFound)
    else if |es| == 1 then Start(c, es[0])
    else
      var st :- Replay(c, es[..|es| - 1]);
      Advance(c, st, es[|es| - 1])
  }

  /** Every way the verifier has of accepting a first event is a start. */
  lemma AcceptedStarts(c: Suite, e: Entry, keys: seq<string>, proof: Proof, source: AnchorSource)
    ensures Incept(c, e, keys).Ok? ==> Start(c, e) == Incept(c, e, keys)
    ensures InceptDelegated(c, e, keys, proof, source).Ok? ==> Start(c, e) == InceptDelegated(c, e, keys, proof, source)
  {
    CheckedKeys(c, e, "icp", keys);
    CheckedKeys(c, e, "dip", keys);
    hide CheckInception, ValidatePrefix, FromInception, FromDelegatedInception, VerifyDelegation, EventKeys, Ilk,
         GetStr;
  }

  /** Every way the verifier has of accepting a later event is an advance. */
  lemma AcceptedAdvances(c: Suite, st: KeyState, e: Entry, badSn: Error, proof: Proof, source: AnchorSource)
    ensures NextState(c, st, e, badSn).Ok? ==> Advance(c, st, e) == NextState(c, st, e, badSn)
    ensures UpdateDelegated(c, st, e, proof, source).Ok? ==>
      Advance(c, st, e) == UpdateDelegated(c, st, e, proof, source)
  {
    if NextState(c, st, e, badSn).Ok? { PlainAdvances(c, st, e, badSn); }
    if UpdateDelegated(c, st, e, proof, source).Ok? { DelegatedAdvances(c, st, e, proof, source); }
  }

  lemma PlainAdvances(c: Suite, st: KeyState, e: Entry, badSn: Error)
    requires NextState(c, st, e, badSn).Ok?
    ensures Advance(c, st, e) == NextState(c, st, e, badSn)
  {
    CheckedNextFacts(c, st, e, badSn);
    NextErrorsAside(c, st, e, badSn);
    hide CheckNext, CheckRotation, CheckInteraction, ApplyRotation, ApplyInteraction, Ilk, EventSaid;
  }

  lemma DelegatedAdvances(c: Suite, st: KeyState, e: Entry, proof: Proof, source: AnchorSource)
    requires UpdateDelegated(c, st, e, proof, source).Ok?
    ensures Advance(c, st, e) == UpdateDelegated(c, st, e, proof, source)
  {
    CheckedNextFacts(c, st, e, MissingField("s"));
    hide CheckNext, CheckRotation, ApplyDelegatedRotation, VerifyDelegation, Ilk, EventSaid;
  }

  lemma NextErrorsAside(c: Suite, st: KeyState, e: Entry, badSn: Error)
    ensures CheckNext(c, st, e, badSn).Ok? ==> CheckNext(c, st, e, Validation) == CheckNext(c, st, e, badSn)
  {
    hide EventSaid, GetStr, Parse;
  }

  lemma CheckedKeys(c: Suite, e: Entry, ilk: string, keys: seq<string>)
    ensures CheckInception(c, e, ilk, keys).Ok? ==> keys == EventKeys(e.sad) && Ilk(e) == ilk
  {
    if CheckInception(c, e, ilk, keys).Ok? {
      InceptionFields(e.sad);
    }
    hide InceptionOf, EventSaid, VerifySigs;
  }

  // ---------- what one step establishes ----------

  /** Facts about every accepted event, given the state it leads to. */
  ghost predicate Vouched(c: Suite, e: Entry, st: KeyState) {
    && EventSaid(c, e).Ok?
    && GetStr(e.sad, "d") == Some(st.lastDigest)
    && GetStr(e.sad, "i") == Some(st.prefix)
    && SnOf(e.sad) == Some(st.sn)
    && VerifySigs(c, e.raw, e.sigs, st.keys, st.threshold).Ok?
    && st.threshold.Valid()
    && st.backerThreshold <= |st.backers|
    && (st.delegated <==> st.delegator.Some?)
  }

  /** The event installs its own keys and commits to the next ones. */
  ghost predicate Installs(e: Entry, st: KeyState) {
    && st.keys == EventKeys(e.sad)
    && st.nextKeys == EventDigests(e.sad)
    && ThresholdField(e.sad, "kt") == Ok(st.threshold)
  }

  ghost predicate Begins(c: Suite, e: Entry, st: KeyState) {
    && Vouched(c, e, st) && Installs(e, st)
    && st.sn == 0
    && (Ilk(e) == "icp" || Ilk(e) == "dip")
    && (st.delegated <==> Ilk(e) == "dip")
    && GetStr(e.sad, "di") == (if st.delegated then st.delegator else GetStr(e.sad, "di"))
    && (c.isKey(st.prefix) || c.digestCode(st.prefix).Some? || st.prefix == st.lastDigest)
    && (c.digestCode(st.prefix).Some? ==> st.prefix == st.lastDigest)
    && StrArrField(e.sad, "b") == Ok(st.backers)
  }

  ghost predicate Continues(c: Suite, st: KeyState, e: Entry, st2: KeyState) {
    && Vouched(c, e, st2)
    && GetStr(e.sad, "p") == Some(st.lastDigest)
    && st2.sn == st.sn + 1
    && st2.prefix == st.prefix && st2.delegated == st.delegated && st2.delegator == st.delegator
    && (Ilk(e) == "ixn" || Ilk(e) == if st.delegated then "drt" else "rot")
    && (if Ilk(e) == "ixn" then st2 == st.(sn := st2.sn, lastDigest := st2.lastDigest)
        else
          && Installs(e, st2)
          && Committed(c, st2.keys, st.nextKeys)
          && (Ilk(e) == "drt" ==> GetStr(e.sad, "di") == st.delegator)
          && exists br, ba :: StrArrField(e.sad, "br") == Ok(br) && StrArrField(e.sad, "ba") == Ok(ba) &&
               st2.backers == UpdateBackers(st.backers, br, ba))
  }

  lemma CheckedInceptionFacts(c: Suite, e: Entry, ilk: string, keys: seq<string>)
    requires CheckInception(c, e, ilk, keys).Ok?
    ensures var icp := CheckInception(c, e, ilk, keys).value;
      && Ilk(e) == ilk && EventSaid(c, e).Ok? && InceptionOf(e.sad) == Ok(icp) && icp.keys == keys
      && VerifySigs(c, e.raw, e.sigs, icp.keys, icp.threshold).Ok?
  {
    hide EventSaid, InceptionOf, VerifySigs;
  }

  lemma InceptionArrays(sad: Json)
    requires InceptionOf(sad).Ok?
    ensures StrArrField(sad, "b") == Ok(InceptionOf(sad).value.backers)
  {
    hide Get, GetStr, StrArrField, ThresholdField;
  }

  lemma StatedSn(sad: Json, s: string, n: nat)
    requires GetStr(sad, "s") == Some(s) && ParseSn(s) == Ok(n)
    ensures SnOf(sad) == Some(n)
  {
    hide GetStr, Parse;
  }

  lemma StatedKeys(sad: Json, keys: seq<string>, digests: seq<string>)
    requires StrArrField(sad, "k") == Ok(keys) && StrArrField(sad, "n") == Ok(digests)
    ensures EventKeys(sad) == keys && EventDigests(sad) == digests
  {
    hide StrArrField;
  }

  /** What an accepted inception body has established. */
  lemma InceptionStateFacts(e: InceptionEvent, delegator: Option<string>)
    requires InceptionState(e, delegator).Ok?
    ensures var st := InceptionState(e, delegator).value;
      && st.sn == 0 && st.prefix == e.prefix && st.lastDigest == e.said && st.keys == e.keys
      && st.nextKeys == e.nextKeys
      && st.threshold == e.threshold && st.backers == e.backers && st.backerThreshold <= |e.backers|
      && st.delegated == delegator.Some? && st.delegator == delegator
  {
    hide Parse;
  }

  lemma BodyBegins(c: Suite, e: Entry, ilk: string, icp: InceptionEvent, delegator: Option<string>)
    requires CheckInception(c, e, ilk, EventKeys(e.sad)) == Ok(icp) && InceptionState(icp, delegator).Ok?
    requires ParseSn(icp.sn) == Ok(0)
    requires ilk == if delegator.Some? then "dip" else "icp"
    requires delegator.Some? ==> GetStr(e.sad, "di") == delegator
    requires c.isKey(icp.prefix) || c.digestCode(icp.prefix).Some? || icp.prefix == icp.said
    requires c.digestCode(icp.prefix).Some? ==> icp.prefix == icp.said
    ensures Begins(c, e, InceptionState(icp, delegator).value)
  {
    CheckedInceptionFacts(c, e, ilk, EventKeys(e.sad));
    InceptionFields(e.sad);
    InceptionArrays(e.sad);
    InceptionStateFacts(icp, delegator);
    hide CheckInception, EventSaid, InceptionOf, InceptionState, VerifySigs, StrArrField, ThresholdField, GetStr,
         Ilk, ParseSn, SnOf, EventKeys, EventDigests;
    StatedSn(e.sad, icp.sn, 0);
    StatedKeys(e.sad, icp.keys, icp.nextKeys);
  }

  lemma StartFacts(c: Suite, e: Entry)
    requires Start(c, e).Ok?
    ensures Begins(c, e, Start(c, e).value)
  {
    hide Begins, CheckInception, InceptionState, Parse;
    if Ilk(e) == "dip" {
      var icp := CheckInception(c, e, "dip", EventKeys(e.sad)).value;
      BodyBegins(c, e, "dip", icp, GetStr(e.sad, "di"));
    } else {
      var icp := CheckInception(c, e, "icp", EventKeys(e.sad)).value;
      BodyBegins(c, e, "icp", icp, None);
    }
  }

  lemma CheckedRotationFacts(c: Suite, e: Entry)
    requires CheckRotation(c, e).Ok?
    ensures var rot := CheckRotation(c, e).value;
      && RotationOf(e.sad) == Ok(rot) && rot.threshold.Valid()
      && VerifySigs(c, e.raw, e.sigs, rot.keys, rot.threshold).Ok?
  {
    hide RotationOf, VerifySigs;
  }

  lemma RotationArrays(sad: Json)
    requires RotationOf(sad).Ok?
    ensures StrArrField(sad, "br") == Ok(RotationOf(sad).value.backersRemove)
    ensures StrArrField(sad, "ba") == Ok(RotationOf(sad).value.backersAdd)
  {
    hide Get, GetStr, StrArrField, ThresholdField;
  }

  lemma CheckedNextFacts(c: Suite, st: KeyState, e: Entry, badSn: Error)
    requires CheckNext(c, st, e, badSn).Ok?
    ensures EventSaid(c, e).Ok? && Ilk(e) == CheckNext(c, st, e, badSn).value
  {
    hide EventSaid, Parse;
  }

  /** What a rotation that applies has established. */
  lemma AppliedRotation(c: Suite, st: KeyState, rot: RotationEvent)
    requires ApplyRotation(c, st, rot).Ok?
    ensures var st2 := ApplyRotation(c, st, rot).value;
      && st2.sn == st.sn + 1 && ParseSn(rot.sn) == Ok(st2.sn) && st2.prefix == st.prefix == rot.prefix
      && rot.prior == st.lastDigest
      && st2.lastDigest == rot.said && st2.keys == rot.keys && st2.nextKeys == rot.nextKeys
      && st2.threshold == rot.threshold && Committed(c, rot.keys, st.nextKeys)
      && st2.backers == UpdateBackers(st.backers, rot.backersRemove, rot.backersAdd)
      && st2.backerThreshold <= |st2.backers|
      && st2.delegated == st.delegated && st2.delegator == st.delegator
  {
    hide Committed, Parse, UpdateBackers;
  }

  lemma RotationVouched(c: Suite, e: Entry, rot: RotationEvent, st2: KeyState)
    requires EventSaid(c, e).Ok? && CheckRotation(c, e) == Ok(rot)
    requires st2.lastDigest == rot.said && st2.keys == rot.keys && st2.nextKeys == rot.nextKeys
    requires st2.threshold == rot.threshold && st2.prefix == rot.prefix && ParseSn(rot.sn) == Ok(st2.sn)
    requires st2.backerThreshold <= |st2.backers| && (st2.delegated <==> st2.delegator.Some?)
    ensures Vouched(c, e, st2) && Installs(e, st2) && GetStr(e.sad, "p") == Some(rot.prior)
  {
    CheckedRotationFacts(c, e);
    RotationFields(e.sad);
    hide RotationOf, VerifySigs, EventSaid, CheckRotation, StrArrField, ThresholdField, GetStr, ParseSn, SnOf,
         EventKeys, EventDigests;
    StatedSn(e.sad, rot.sn, st2.sn);
    StatedKeys(e.sad, rot.keys, rot.nextKeys);
  }

  lemma RotationContinues(c: Suite, st: KeyState, e: Entry, rot: RotationEvent)
    requires EventSaid(c, e).Ok? && CheckRotation(c, e) == Ok(rot) && ApplyRotation(c, st, rot).Ok?
    requires Ilk(e) == (if st.delegated then "drt" else "rot")
    requires Ilk(e) == "drt" ==> GetStr(e.sad, "di") == st.delegator
    requires st.delegated <==> st.delegator.Some?
    ensures Continues(c, st, e, ApplyRotation(c, st, rot).value)
  {
    hide Vouched, Installs, VerifySigs, EventSaid, ApplyRotation, CheckRotation, GetStr, UpdateBackers, Committed,
         Ilk, RotationOf, StrArrField;
    AppliedRotation(c, st, rot);
    RotationVouched(c, e, rot, ApplyRotation(c, st, rot).value);
    CheckedRotationFacts(c, e);
    RotationArrays(e.sad);
  }

  lemma AppliedInteraction(st: KeyState, ixn: InteractionEvent)
    requires ApplyInteraction(st, ixn).Ok?
    ensures ApplyInteraction(st, ixn).value == st.(sn := st.sn + 1, lastDigest := ixn.said)
    ensures ParseSn(ixn.sn) == Ok(st.sn + 1) && ixn.prefix == st.prefix && ixn.prior == st.lastDigest
  {
    hide Parse;
  }

  lemma InteractionContinues(c: Suite, st: KeyState, e: Entry, ixn: InteractionEvent)
    requires EventSaid(c, e).Ok? && CheckInteraction(c, st, e) == Ok(ixn) && ApplyInteraction(st, ixn).Ok?
    requires Ilk(e) == "ixn" && st.threshold.Valid() && st.backerThreshold <= |st.backers|
    requires st.delegated <==> st.delegator.Some?
    ensures Continues(c, st, e, ApplyInteraction(st, ixn).value)
  {
    hide InteractionOf, VerifySigs, EventSaid, GetStr, ParseSn, CheckInteraction, Ilk, SnOf, ApplyInteraction;
    CheckedInteractionFacts(c, st, e);
    InteractionFields(e.sad);
    AppliedInteraction(st, ixn);
    StatedSn(e.sad, ixn.sn, st.sn + 1);
  }

  lemma CheckedInteractionFacts(c: Suite, st: KeyState, e: Entry)
    requires CheckInteraction(c, st, e).Ok?
    ensures InteractionOf(e.sad) == CheckInteraction(c, st, e)
    ensures VerifySigs(c, e.raw, e.sigs, st.keys, st.threshold).Ok?
  {
    hide InteractionOf, VerifySigs;
  }

  lemma AdvanceFacts(c: Suite, st: KeyState, e: Entry)
    requires Advance(c, st, e).Ok? && st.threshold.Valid() && st.backerThreshold <= |st.backers|
    requires st.delegated <==> st.delegator.Some?
    ensures Continues(c, st, e, Advance(c, st, e).value)
  {
    hide Continues, ApplyRotation, ApplyInteraction, CheckRotation, CheckInteraction, CheckNext, EventSaid;
    if Ilk(e) == "drt" {
      CheckedNextFacts(c, st, e, MissingField("s"));
      RotationContinues(c, st, e, CheckRotation(c, e).value);
    } else {
      CheckedNextFacts(c, st, e, Validation);
      if Ilk(e) == "rot" {
        RotationContinues(c, st, e, CheckRotation(c, e).value);
      } else {
        InteractionContinues(c, st, e, CheckInteraction(c, st, e).value);
      }
    }
  }
}
