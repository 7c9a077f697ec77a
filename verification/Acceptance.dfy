/** Exactly which events are accepted, and the state each leads to, read off the JSON body. */
module Acceptance {
  import opened Wrappers
  import opened Numerals
  import opened JsonValues
  import opened Primitives
  import opened Events
  import opened KeyStates
  import opened Signatures
  import opened Delegations
  import opened Kevers
  import opened Histories

  // ---------- the bodies ----------

  /** The fields every establishment event has, and what the state takes from them. */
  ghost predicate Establishes(e: Entry, st: KeyState) {
    && GetStr(e.sad, "v").Some? && ArrField(e.sad, "a").Ok?
    && ThresholdField(e.sad, "kt") == Ok(st.threshold) && StrArrField(e.sad, "k") == Ok(st.keys)
    && ThresholdField(e.sad, "nt") == Ok(st.nextThreshold) && StrArrField(e.sad, "n") == Ok(st.nextKeys)
    && StrArrField(e.sad, "c") == Ok(st.config)
    && GetStr(e.sad, "bt").Some? && ParseBackerThreshold(GetStr(e.sad, "bt").value) == Ok(st.backerThreshold)
    && st.backerThreshold <= |st.backers|
    && GetStr(e.sad, "d") == Some(st.said) && st.lastDigest == st.said && GetStr(e.sad, "i") == Some(st.prefix)
    && SnOf(e.sad) == Some(st.sn)
  }

  /** How a prefix is derived from its inception: a digest is the event's own, a key is the first. */
  ghost predicate Derives(c: Suite, st: KeyState) {
    if c.digestCode(st.prefix).Some? then st.prefix == st.said
    else c.isKey(st.prefix) && st.keys != [] && st.prefix == st.keys[0]
  }

  /** A first event, and the state it leads to. */
  ghost predicate Opens(c: Suite, e: Entry, st: KeyState) {
    && EventSaid(c, e).Ok? && Establishes(e, st) && st.sn == 0
    && StrArrField(e.sad, "b") == Ok(st.backers)
    && VerifySigs(c, e.raw, e.sigs, st.keys, st.threshold).Ok?
    && (|| (Ilk(e) == "icp" && !st.delegated && st.delegator == None && Derives(c, st))
        || (Ilk(e) == "dip" && st.delegated && st.delegator.Some? && st.delegator.value != ""
            && GetStr(e.sad, "di") == st.delegator && st.prefix == st.said))
  }

  /** What every later event must say of the state it continues. */
  ghost predicate Links(c: Suite, st: KeyState, e: Entry) {
    && EventSaid(c, e).Ok? && GetStr(e.sad, "v").Some? && GetStr(e.sad, "d").Some? && ArrField(e.sad, "a").Ok?
    && GetStr(e.sad, "i") == Some(st.prefix) && SnOf(e.sad) == Some(st.sn + 1)
    && GetStr(e.sad, "p") == Some(st.lastDigest)
  }

  /** An interaction: signed by the keys in force, it moves number and last digest only. */
  ghost predicate Interacts(c: Suite, st: KeyState, e: Entry, st2: KeyState) {
    && Ilk(e) == "ixn" && AsKeys(c, st.keys).Ok?
    && VerifySigs(c, e.raw, e.sigs, st.keys, st.threshold).Ok?
    && GetStr(e.sad, "d") == Some(st2.lastDigest)
    && st2 == st.(sn := st.sn + 1, lastDigest := st2.lastDigest)
  }

  /** A rotation of the state's own family: signed by the keys it installs, which were committed to. */
  ghost predicate Rotates(c: Suite, st: KeyState, e: Entry, st2: KeyState) {
    && Ilk(e) == (if st.delegated then "drt" else "rot")
    && (st.delegated ==> st.delegator.Some? && GetStr(e.sad, "di") == st.delegator)
    && Establishes(e, st2) && st2.sn == st.sn + 1 && st2.prefix == st.prefix
    && st2.delegated == st.delegated && st2.delegator == st.delegator
    && AsKeys(c, st2.keys).Ok? && VerifySigs(c, e.raw, e.sigs, st2.keys, st2.threshold).Ok?
    && Committed(c, st2.keys, st.nextKeys)
    && StrArrField(e.sad, "br").Ok? && StrArrField(e.sad, "ba").Ok?
    && st2.backers == UpdateBackers(st.backers, StrArrField(e.sad, "br").value, StrArrField(e.sad, "ba").value)
  }

  ghost predicate CarriesOn(c: Suite, st: KeyState, e: Entry, st2: KeyState) {
    Links(c, st, e) && (Interacts(c, st, e, st2) || Rotates(c, st, e, st2))
  }

  // ---------- reading the bodies ----------

  lemma InceptionBody(sad: Json, icp: InceptionEvent)
    ensures InceptionOf(sad) == Ok(icp) <==>
      && GetStr(sad, "v") == Some(icp.version) && GetStr(sad, "t") == Some(icp.ilk)
      && GetStr(sad, "d") == Some(icp.said) && GetStr(sad, "i") == Some(icp.prefix) && GetStr(sad, "s") == Some(icp.sn)
      && ThresholdField(sad, "kt") == Ok(icp.threshold) && StrArrField(sad, "k") == Ok(icp.keys)
      && ThresholdField(sad, "nt") == Ok(icp.nextThreshold) && StrArrField(sad, "n") == Ok(icp.nextKeys)
      && GetStr(sad, "bt") == Some(icp.backerThreshold) && StrArrField(sad, "b") == Ok(icp.backers)
      && StrArrField(sad, "c") == Ok(icp.config) && ArrField(sad, "a") == Ok(icp.anchors)
  {
    hide GetStr, StrArrField, ThresholdField, ArrField;
  }

  lemma RotationBody(sad: Json, rot: RotationEvent)
    ensures RotationOf(sad) == Ok(rot) <==>
      && GetStr(sad, "v") == Some(rot.version) && GetStr(sad, "t") == Some(rot.ilk)
      && GetStr(sad, "d") == Some(rot.said) && GetStr(sad, "i") == Some(rot.prefix) && GetStr(sad, "s") == Some(rot.sn)
      && GetStr(sad, "p") == Some(rot.prior)
      && ThresholdField(sad, "kt") == Ok(rot.threshold) && StrArrField(sad, "k") == Ok(rot.keys)
      && ThresholdField(sad, "nt") == Ok(rot.nextThreshold) && StrArrField(sad, "n") == Ok(rot.nextKeys)
      && GetStr(sad, "bt") == Some(rot.backerThreshold)
      && StrArrField(sad, "br") == Ok(rot.backersRemove) && StrArrField(sad, "ba") == Ok(rot.backersAdd)
      && StrArrField(sad, "c") == Ok(rot.config) && ArrField(sad, "a") == Ok(rot.anchors)
  {
    hide GetStr, StrArrField, ThresholdField, ArrField;
  }

  // ---------- first events ----------

  /** An inception body says what the state takes from it. */
  ghost predicate Mirrors(icp: InceptionEvent, st: KeyState) {
    && icp.prefix == st.prefix && icp.said == st.said == st.lastDigest && icp.threshold == st.threshold
    && icp.keys == st.keys && icp.nextThreshold == st.nextThreshold && icp.nextKeys == st.nextKeys
    && icp.backers == st.backers && icp.config == st.config
    && ParseBackerThreshold(icp.backerThreshold) == Ok(st.backerThreshold) && st.backerThreshold <= |st.backers|
    && ParseSn(icp.sn) == Ok(0) && st.sn == 0
  }

  lemma CheckedExactly(c: Suite, e: Entry, ilk: string, keys: seq<string>, icp: InceptionEvent)
    ensures CheckInception(c, e, ilk, keys) == Ok(icp) <==>
      && GetStr(e.sad, "t") == Some(ilk) && EventSaid(c, e).Ok? && InceptionOf(e.sad) == Ok(icp) && icp.keys == keys
      && VerifySigs(c, e.raw, e.sigs, keys, icp.threshold).Ok?
  {
    hide EventSaid, InceptionOf, VerifySigs, GetStr;
  }

  lemma StateExactly(icp: InceptionEvent, st: KeyState)
    ensures FromInception(icp) == Ok(st) <==> Mirrors(icp, st) && !st.delegated && st.delegator == None
  {
    hide Parse;
  }

  lemma DelegatedStateExactly(dip: DelegatedInceptionEvent, st: KeyState)
    ensures FromDelegatedInception(dip) == Ok(st) <==>
      Mirrors(dip.base, st) && st.delegated && st.delegator == Some(dip.delegator) && dip.delegator != ""
  {
    hide Parse;
  }

  function TextIn(sad: Json, key: string): string {
    match GetStr(sad, key)
    case Some(s) => s
    case None => ""
  }

  function TextsIn(sad: Json, key: string): seq<string> {
    match StrArrField(sad, key)
    case Ok(items) => items
    case Err(_) => []
  }

  /** The inception body behind a state that an event establishes. */
  function BodyBehind(sad: Json, st: KeyState): InceptionEvent {
    InceptionEvent(TextIn(sad, "v"), TextIn(sad, "t"), st.said, st.prefix, TextIn(sad, "s"), st.threshold, st.keys,
                   st.nextThreshold, st.nextKeys, TextIn(sad, "bt"), st.backers, st.config, AnchorsOf(sad))
  }

  lemma EstablishesMirrors(e: Entry, st: KeyState)
    requires Establishes(e, st) && st.sn == 0 && StrArrField(e.sad, "b") == Ok(st.backers) && GetStr(e.sad, "t").Some?
    ensures InceptionOf(e.sad) == Ok(BodyBehind(e.sad, st)) && Mirrors(BodyBehind(e.sad, st), st)
  {
    InceptionBody(e.sad, BodyBehind(e.sad, st));
    hide GetStr, StrArrField, ThresholdField, ArrField, InceptionOf, Parse;
  }

  lemma MirrorsEstablishes(e: Entry, icp: InceptionEvent, st: KeyState)
    requires InceptionOf(e.sad) == Ok(icp) && Mirrors(icp, st)
    ensures Establishes(e, st) && StrArrField(e.sad, "b") == Ok(st.backers)
  {
    InceptionBody(e.sad, icp);
    hide GetStr, StrArrField, ThresholdField, ArrField, InceptionOf, Parse;
  }

  lemma PrefixExactly(c: Suite, icp: InceptionEvent, st: KeyState)
    requires Mirrors(icp, st)
    ensures ValidatePrefix(c, icp).Ok? <==> Derives(c, st)
  {
    hide ParseBackerThreshold, ParseSn;
  }

  lemma IlkIs(e: Entry, t: string)
    requires t != ""
    ensures GetStr(e.sad, "t") == Some(t) <==> Ilk(e) == t
  {
    hide GetStr;
  }

  /** `Kever::new` and `new_from_parts` accept exactly the plain first events, and lead to exactly that state. */
  lemma InceptExactly(c: Suite, e: Entry, keys: seq<string>, st: KeyState)
    ensures Incept(c, e, keys) == Ok(st) <==> Opens(c, e, st) && Ilk(e) == "icp" && keys == st.keys
  {
    hide CheckInception, FromInception, ValidatePrefix, Establishes, Mirrors, EventSaid, VerifySigs, InceptionOf, Ilk,
         GetStr, StrArrField, BodyBehind, Derives;
    IlkIs(e, "icp");
    if Incept(c, e, keys) == Ok(st) {
      var icp := CheckInception(c, e, "icp", keys).value;
      CheckedExactly(c, e, "icp", keys, icp);
      StateExactly(icp, st);
      MirrorsEstablishes(e, icp, st);
      PrefixExactly(c, icp, st);
      MirroredKeys(icp, st);
    }
    if Opens(c, e, st) && Ilk(e) == "icp" && keys == st.keys {
      var icp := BodyBehind(e.sad, st);
      EstablishesMirrors(e, st);
      MirroredKeys(icp, st);
      CheckedExactly(c, e, "icp", keys, icp);
      StateExactly(icp, st);
      PrefixExactly(c, icp, st);
    }
  }

  lemma MirroredKeys(icp: InceptionEvent, st: KeyState)
    requires Mirrors(icp, st)
    ensures icp.keys == st.keys && icp.threshold == st.threshold && st.sn == 0
    ensures icp.prefix == st.prefix && icp.said == st.said
  {
  }

  lemma CheckedDelegatedExactly(c: Suite, e: Entry, keys: seq<string>, dip: DelegatedInceptionEvent)
    ensures CheckDelegatedInception(c, e, keys) == Ok(dip) <==>
      && CheckInception(c, e, "dip", keys) == Ok(dip.base) && GetStr(e.sad, "di") == Some(dip.delegator)
      && dip.base.prefix == dip.base.said
  {
    hide CheckInception, GetStr;
  }

  /** Everything but the anchor of a delegated first event. */
  lemma DelegatedExactly(c: Suite, e: Entry, keys: seq<string>, st: KeyState)
    ensures (&& CheckDelegatedInception(c, e, keys).Ok?
             && FromDelegatedInception(CheckDelegatedInception(c, e, keys).value) == Ok(st)) <==>
      Opens(c, e, st) && Ilk(e) == "dip" && keys == st.keys
    ensures CheckDelegatedInception(c, e, keys).Ok? && Opens(c, e, st) && Ilk(e) == "dip" ==>
      var dip := CheckDelegatedInception(c, e, keys).value;
      dip.base.prefix == st.prefix && dip.base.said == st.said && Some(dip.delegator) == st.delegator
  {
    hide CheckDelegatedInception, CheckInception, FromDelegatedInception, Establishes, Mirrors, EventSaid, VerifySigs,
         InceptionOf, Ilk, GetStr, StrArrField, BodyBehind, Derives;
    IlkIs(e, "dip");
    if CheckDelegatedInception(c, e, keys).Ok? {
      var dip := CheckDelegatedInception(c, e, keys).value;
      CheckedDelegatedExactly(c, e, keys, dip);
      CheckedExactly(c, e, "dip", keys, dip.base);
      DelegatedStateExactly(dip, st);
      if FromDelegatedInception(dip) == Ok(st) {
        MirrorsEstablishes(e, dip.base, st);
        MirroredKeys(dip.base, st);
      }
    }
    if Opens(c, e, st) && Ilk(e) == "dip" {
      var dip := DelegatedInceptionEvent(BodyBehind(e.sad, st), st.delegator.value);
      EstablishesMirrors(e, st);
      MirroredKeys(dip.base, st);
      CheckedExactly(c, e, "dip", keys, dip.base);
      CheckedDelegatedExactly(c, e, keys, dip);
      DelegatedStateExactly(dip, st);
      if CheckDelegatedInception(c, e, keys).Ok? {
        CheckedExactly(c, e, "dip", keys, CheckDelegatedInception(c, e, keys).value.base);
      }
    }
  }

  /** `Kever::new_delegated` accepts exactly the delegated first events whose anchor checks out. */
  lemma InceptDelegatedExactly(c: Suite, e: Entry, keys: seq<string>, proof: Proof, source: AnchorSource, st: KeyState)
    ensures InceptDelegated(c, e, keys, proof, source) == Ok(st) <==>
      && Opens(c, e, st) && Ilk(e) == "dip" && keys == st.keys
      && st.delegator.Some? && VerifyDelegation(st.prefix, 0, st.said, st.delegator.value, proof, source).Ok?
  {
    hide CheckDelegatedInception, FromDelegatedInception, VerifyDelegation, Opens, Ilk;
    DelegatedExactly(c, e, keys, st);
    if Opens(c, e, st) && Ilk(e) == "dip" {
      OpensDelegator(c, e, st);
    }
  }

  lemma OpensDelegator(c: Suite, e: Entry, st: KeyState)
    requires Opens(c, e, st) && Ilk(e) == "dip"
    ensures st.delegator.Some?
  {
    hide Establishes, EventSaid, VerifySigs, GetStr, StrArrField;
  }

  /** A log starts exactly with such an event. */
  lemma StartExactly(c: Suite, e: Entry, st: KeyState)
    ensures Start(c, e) == Ok(st) <==> Opens(c, e, st)
  {
    hide CheckDelegatedInception, FromDelegatedInception, Incept, Opens, GetStr;
    DelegatedExactly(c, e, EventKeys(e.sad), st);
    InceptExactly(c, e, EventKeys(e.sad), st);
    if Opens(c, e, st) {
      OpenedKeys(c, e, st);
    }
  }

  lemma OpenedKeys(c: Suite, e: Entry, st: KeyState)
    requires Opens(c, e, st)
    ensures EventKeys(e.sad) == st.keys && (Ilk(e) == "icp" || Ilk(e) == "dip")
  {
    hide EventSaid, VerifySigs, GetStr, StrArrField, Ilk, ThresholdField, ArrField;
  }

  // ---------- later events ----------

  lemma NextExactly(c: Suite, st: KeyState, e: Entry, badSn: Error, ilk: string)
    ensures CheckNext(c, st, e, badSn) == Ok(ilk) <==>
      EventSaid(c, e).Ok? && GetStr(e.sad, "t") == Some(ilk) && SnOf(e.sad) == Some(st.sn + 1)
  {
    hide EventSaid, GetStr, Parse;
  }

  lemma SignedRotation(c: Suite, e: Entry, rot: RotationEvent)
    ensures CheckRotation(c, e) == Ok(rot) <==>
      && RotationOf(e.sad) == Ok(rot) && AsKeys(c, rot.keys).Ok?
      && VerifySigs(c, e.raw, e.sigs, rot.keys, rot.threshold).Ok?
  {
    hide RotationOf, VerifySigs;
  }

  lemma SignedInteraction(c: Suite, st: KeyState, e: Entry, ixn: InteractionEvent)
    ensures CheckInteraction(c, st, e) == Ok(ixn) <==>
      && InteractionOf(e.sad) == Ok(ixn) && AsKeys(c, st.keys).Ok?
      && VerifySigs(c, e.raw, e.sigs, st.keys, st.threshold).Ok?
  {
    hide InteractionOf, VerifySigs;
  }

  /** A rotation body links to a state and says what the next one takes from it. */
  ghost predicate Turns(c: Suite, st: KeyState, rot: RotationEvent, st2: KeyState) {
    && ParseSn(rot.sn) == Ok(st.sn + 1) && st2.sn == st.sn + 1
    && rot.prefix == st.prefix == st2.prefix && rot.prior == st.lastDigest
    && rot.said == st2.said == st2.lastDigest && rot.threshold == st2.threshold && rot.keys == st2.keys
    && rot.nextThreshold == st2.nextThreshold && rot.nextKeys == st2.nextKeys && rot.config == st2.config
    && Committed(c, st2.keys, st.nextKeys)
    && st2.backers == UpdateBackers(st.backers, rot.backersRemove, rot.backersAdd)
    && ParseBackerThreshold(rot.backerThreshold) == Ok(st2.backerThreshold) && st2.backerThreshold <= |st2.backers|
    && st2.delegated == st.delegated && st2.delegator == st.delegator
  }

  lemma AppliedExactly(c: Suite, st: KeyState, rot: RotationEvent, st2: KeyState)
    ensures ApplyRotation(c, st, rot) == Ok(st2) <==> Turns(c, st, rot, st2)
  {
    hide Parse, Committed, UpdateBackers;
  }

  lemma MovedExactly(st: KeyState, ixn: InteractionEvent, st2: KeyState)
    ensures ApplyInteraction(st, ixn) == Ok(st2) <==>
      && ParseSn(ixn.sn) == Ok(st.sn + 1) && ixn.prefix == st.prefix && ixn.prior == st.lastDigest
      && st2 == st.(sn := st.sn + 1, lastDigest := ixn.said)
  {
    hide Parse;
  }

  /** The rotation body behind a state that an event establishes. */
  function RotationBehind(sad: Json, st: KeyState): RotationEvent {
    RotationEvent(TextIn(sad, "v"), TextIn(sad, "t"), st.said, st.prefix, TextIn(sad, "s"), TextIn(sad, "p"),
                  st.threshold, st.keys, st.nextThreshold, st.nextKeys, TextIn(sad, "bt"),
                  TextsIn(sad, "br"), TextsIn(sad, "ba"), st.config, AnchorsOf(sad))
  }

  /** What a rotation event and the state after it say of each other, signatures and family apart. */
  ghost predicate RotatesTo(c: Suite, st: KeyState, e: Entry, st2: KeyState) {
    && Establishes(e, st2) && st2.sn == st.sn + 1 && st2.prefix == st.prefix
    && st2.delegated == st.delegated && st2.delegator == st.delegator
    && Committed(c, st2.keys, st.nextKeys) && GetStr(e.sad, "p") == Some(st.lastDigest)
    && StrArrField(e.sad, "br").Ok? && StrArrField(e.sad, "ba").Ok?
    && st2.backers == UpdateBackers(st.backers, StrArrField(e.sad, "br").value, StrArrField(e.sad, "ba").value)
  }

  lemma RotatedBody(c: Suite, st: KeyState, e: Entry, st2: KeyState)
    requires RotatesTo(c, st, e, st2) && GetStr(e.sad, "t").Some?
    ensures RotationOf(e.sad) == Ok(RotationBehind(e.sad, st2)) && Turns(c, st, RotationBehind(e.sad, st2), st2)
  {
    RotationBody(e.sad, RotationBehind(e.sad, st2));
    hide GetStr, StrArrField, ThresholdField, ArrField, RotationOf, Parse, Committed, UpdateBackers;
  }

  lemma TurnedBody(c: Suite, st: KeyState, e: Entry, rot: RotationEvent, st2: KeyState)
    requires RotationOf(e.sad) == Ok(rot) && Turns(c, st, rot, st2)
    ensures RotatesTo(c, st, e, st2)
  {
    RotationBody(e.sad, rot);
    hide GetStr, StrArrField, ThresholdField, ArrField, RotationOf, Parse, Committed, UpdateBackers;
  }

  /** A signed rotation applied to a state. */
  lemma RotationExactly(c: Suite, st: KeyState, e: Entry, st2: KeyState)
    requires GetStr(e.sad, "t").Some?
    ensures CheckRotation(c, e).Ok? && ApplyRotation(c, st, CheckRotation(c, e).value) == Ok(st2) <==>
      && RotatesTo(c, st, e, st2) && AsKeys(c, st2.keys).Ok?
      && VerifySigs(c, e.raw, e.sigs, st2.keys, st2.threshold).Ok?
    ensures CheckRotation(c, e).Ok? && RotatesTo(c, st, e, st2) ==>
      CheckRotation(c, e).value.said == st2.said && CheckRotation(c, e).value.prefix == st2.prefix
  {
    hide CheckRotation, ApplyRotation, RotatesTo, AsKeys, VerifySigs, RotationOf, RotationBehind, GetStr, Turns;
    if CheckRotation(c, e).Ok? {
      var rot := CheckRotation(c, e).value;
      SignedRotation(c, e, rot);
      AppliedExactly(c, st, rot, st2);
      if Turns(c, st, rot, st2) {
        TurnedBody(c, st, e, rot, st2);
        TurnedKeys(c, st, rot, st2);
      }
    }
    if RotatesTo(c, st, e, st2) {
      var rot := RotationBehind(e.sad, st2);
      RotatedBody(c, st, e, st2);
      TurnedKeys(c, st, rot, st2);
      SignedRotation(c, e, rot);
      AppliedExactly(c, st, rot, st2);
    }
  }

  lemma TurnedKeys(c: Suite, st: KeyState, rot: RotationEvent, st2: KeyState)
    requires Turns(c, st, rot, st2)
    ensures rot.keys == st2.keys && rot.threshold == st2.threshold && rot.said == st2.said && rot.prefix == st2.prefix
  {
    hide Committed, UpdateBackers, Parse;
  }

  /** The interaction body of an event, whatever it says of its sequence number. */
  function InteractionBehind(sad: Json): InteractionEvent {
    InteractionEvent(TextIn(sad, "v"), TextIn(sad, "t"), TextIn(sad, "d"), TextIn(sad, "i"), TextIn(sad, "s"),
                     TextIn(sad, "p"), AnchorsOf(sad))
  }

  lemma InteractionRead(sad: Json)
    ensures InteractionOf(sad).Ok? <==>
      && GetStr(sad, "v").Some? && GetStr(sad, "t").Some? && GetStr(sad, "d").Some? && GetStr(sad, "i").Some?
      && GetStr(sad, "s").Some? && GetStr(sad, "p").Some? && ArrField(sad, "a").Ok?
    ensures InteractionOf(sad).Ok? ==> InteractionOf(sad).value == InteractionBehind(sad)
  {
    hide GetStr, ArrField;
  }

  /** An interaction accepted and applied. */
  lemma InteractionExactly(c: Suite, st: KeyState, e: Entry, st2: KeyState)
    requires EventSaid(c, e).Ok? && Ilk(e) == "ixn" && SnOf(e.sad) == Some(st.sn + 1)
    ensures CheckInteraction(c, st, e).Ok? && ApplyInteraction(st, CheckInteraction(c, st, e).value) == Ok(st2) <==>
      Links(c, st, e) && Interacts(c, st, e, st2)
  {
    hide EventSaid, VerifySigs, GetStr, ArrField, CheckInteraction, ApplyInteraction, InteractionOf, AsKeys, Parse;
    var ixn := InteractionBehind(e.sad);
    InteractionRead(e.sad);
    SignedInteraction(c, st, e, ixn);
    MovedExactly(st, ixn, st2);
    if CheckInteraction(c, st, e).Ok? {
      SignedInteraction(c, st, e, CheckInteraction(c, st, e).value);
    }
  }

  lemma LinkedRotation(c: Suite, st: KeyState, e: Entry, st2: KeyState)
    requires EventSaid(c, e).Ok? && SnOf(e.sad) == Some(st.sn + 1)
    ensures Links(c, st, e) && Rotates(c, st, e, st2) <==>
      && Ilk(e) == (if st.delegated then "drt" else "rot")
      && (st.delegated ==> st.delegator.Some? && GetStr(e.sad, "di") == st.delegator)
      && RotatesTo(c, st, e, st2) && AsKeys(c, st2.keys).Ok?
      && VerifySigs(c, e.raw, e.sigs, st2.keys, st2.threshold).Ok?
  {
    hide EventSaid, VerifySigs, GetStr, ArrField, StrArrField, ThresholdField, AsKeys, Committed, UpdateBackers, Ilk,
         ParseBackerThreshold, SnOf;
  }

  /**
   * `update`, `verify_update` and `verify_update_owned` accept exactly the events that extend the
   * state, delegated rotations apart, and lead to exactly that next state.
   */
  lemma NextStateExactly(c: Suite, st: KeyState, e: Entry, badSn: Error, st2: KeyState)
    ensures NextState(c, st, e, badSn) == Ok(st2) <==> CarriesOn(c, st, e, st2) && Ilk(e) != "drt"
  {
    hide EventSaid, CheckRotation, CheckInteraction, ApplyRotation, ApplyInteraction, RotatesTo, Links, Interacts,
         Rotates, GetStr, SnOf, VerifySigs, AsKeys, CheckNext;
    NextExactly(c, st, e, badSn, Ilk(e));
    LinkFacts(c, st, e);
    TypeFacts(c, st, e, st2);
    if EventSaid(c, e).Ok? && GetStr(e.sad, "t") == Some(Ilk(e)) && SnOf(e.sad) == Some(st.sn + 1) {
      LinkedRotation(c, st, e, st2);
      RotationExactly(c, st, e, st2);
      if Ilk(e) == "ixn" {
        InteractionExactly(c, st, e, st2);
      }
    } else if CheckNext(c, st, e, badSn).Ok? {
      NextExactly(c, st, e, badSn, CheckNext(c, st, e, badSn).value);
    }
  }

  predicate NoGap<T>(r: Result<T>) {
    r.Err? ==> !r.error.OutOfOrder?
  }

  lemma FieldNoGap(sad: Json, key: string)
    ensures NoGap(StrArrField(sad, key)) && NoGap(ThresholdField(sad, key)) && NoGap(ArrField(sad, key))
  {
    hide Get, StrItems;
  }

  lemma BodyNoGap(sad: Json)
    ensures NoGap(RotationOf(sad)) && NoGap(InteractionOf(sad))
  {
    hide StrArrField, ThresholdField, ArrField, GetStr;
    FieldNoGap(sad, "kt");
    FieldNoGap(sad, "k");
    FieldNoGap(sad, "nt");
    FieldNoGap(sad, "n");
    FieldNoGap(sad, "br");
    FieldNoGap(sad, "ba");
    FieldNoGap(sad, "c");
    FieldNoGap(sad, "a");
  }

  lemma SignedNoGap(c: Suite, st: KeyState, e: Entry)
    ensures NoGap(CheckRotation(c, e)) && NoGap(CheckInteraction(c, st, e))
  {
    hide RotationOf, InteractionOf, Unreadable, Signed;
    BodyNoGap(e.sad);
  }

  lemma RotationNoGap(c: Suite, st: KeyState, rot: RotationEvent)
    requires ParseSn(rot.sn) == Ok(st.sn + 1)
    ensures NoGap(ApplyRotation(c, st, rot))
  {
    hide Parse, Committed, UpdateBackers;
  }

  lemma InteractionNoGap(st: KeyState, ixn: InteractionEvent)
    requires ParseSn(ixn.sn) == Ok(st.sn + 1)
    ensures NoGap(ApplyInteraction(st, ixn))
  {
    hide Parse;
  }

  /** The checks of a body, its signatures and its link never report a gap once the number is right. */
  lemma RightNumberNoGap(c: Suite, st: KeyState, e: Entry)
    requires SnOf(e.sad) == Some(st.sn + 1)
    ensures NoGap(CheckRotation(c, e)) && NoGap(CheckInteraction(c, st, e))
    ensures CheckRotation(c, e).Ok? ==> NoGap(ApplyRotation(c, st, CheckRotation(c, e).value))
    ensures CheckInteraction(c, st, e).Ok? ==> NoGap(ApplyInteraction(st, CheckInteraction(c, st, e).value))
  {
    SignedNoGap(c, st, e);
    hide Parse, VerifySigs, AsKeys, GetStr, ApplyRotation, ApplyInteraction, RotationOf, InteractionOf;
    if CheckRotation(c, e).Ok? {
      RotationFields(e.sad);
      SignedRotation(c, e, CheckRotation(c, e).value);
      RotationNoGap(c, st, CheckRotation(c, e).value);
    }
    if CheckInteraction(c, st, e).Ok? {
      InteractionFields(e.sad);
      SignedInteraction(c, st, e, CheckInteraction(c, st, e).value);
      InteractionNoGap(st, CheckInteraction(c, st, e).value);
    }
  }

  lemma SaidIsNoGap(c: Suite, e: Entry)
    ensures EventSaid(c, e).Err? ==> !EventSaid(c, e).error.OutOfOrder?
  {
    hide GetStr;
  }

  /**
   * An event is reported out of order exactly when it carries its SAID and a type, and its number is
   * another than the next one; both numbers are in the report.
   */
  lemma GapExactly(c: Suite, st: KeyState, e: Entry, badSn: Error, expected: nat, got: nat)
    requires !badSn.OutOfOrder?
    ensures NextState(c, st, e, badSn) == Err(OutOfOrder(expected, got)) <==>
      && EventSaid(c, e).Ok? && GetStr(e.sad, "t").Some? && SnOf(e.sad) == Some(got)
      && got != st.sn + 1 == expected
  {
    hide EventSaid, CheckRotation, CheckInteraction, ApplyRotation, ApplyInteraction, GetStr, Parse;
    SaidIsNoGap(c, e);
    if SnOf(e.sad) == Some(st.sn + 1) {
      RightNumberNoGap(c, st, e);
    }
  }

  lemma LinkFacts(c: Suite, st: KeyState, e: Entry)
    ensures Links(c, st, e) ==> EventSaid(c, e).Ok? && SnOf(e.sad) == Some(st.sn + 1)
    ensures GetStr(e.sad, "t").Some? ==> GetStr(e.sad, "t") == Some(Ilk(e))
    ensures Ilk(e) != "" ==> GetStr(e.sad, "t") == Some(Ilk(e))
  {
    hide EventSaid, GetStr, SnOf, ArrField;
  }

  lemma TypeFacts(c: Suite, st: KeyState, e: Entry, st2: KeyState)
    ensures Interacts(c, st, e, st2) ==> Ilk(e) == "ixn"
    ensures Rotates(c, st, e, st2) ==> Ilk(e) == if st.delegated then "drt" else "rot"
  {
    hide Establishes, AsKeys, VerifySigs, Committed, UpdateBackers, GetStr, StrArrField, Ilk;
  }

  lemma CheckedDrtExactly(c: Suite, st: KeyState, e: Entry, drt: DelegatedRotationEvent)
    ensures CheckDelegatedRotation(c, st, e) == Ok(drt) <==>
      && EventSaid(c, e).Ok? && GetStr(e.sad, "t") == Some("drt") && SnOf(e.sad) == Some(st.sn + 1)
      && CheckRotation(c, e) == Ok(drt.base) && GetStr(e.sad, "di") == Some(drt.delegator)
  {
    NextExactly(c, st, e, MissingField("s"), "drt");
    hide EventSaid, GetStr, SnOf, CheckRotation, CheckNext;
  }

  /** Everything but the anchor of a delegated rotation. */
  lemma DelegatedRotationExactly(c: Suite, st: KeyState, e: Entry, st2: KeyState)
    ensures (&& CheckDelegatedRotation(c, st, e).Ok?
             && ApplyDelegatedRotation(c, st, CheckDelegatedRotation(c, st, e).value) == Ok(st2)) <==>
      CarriesOn(c, st, e, st2) && Ilk(e) == "drt"
    ensures CheckDelegatedRotation(c, st, e).Ok? && CarriesOn(c, st, e, st2) && Ilk(e) == "drt" ==>
      var drt := CheckDelegatedRotation(c, st, e).value;
      drt.base.prefix == st2.prefix && drt.base.said == st2.said && Some(drt.delegator) == st2.delegator
  {
    hide EventSaid, CheckRotation, ApplyRotation, RotatesTo, Links, Interacts, Rotates, GetStr, SnOf, VerifySigs,
         AsKeys, CheckDelegatedRotation;
    LinkFacts(c, st, e);
    TypeFacts(c, st, e, st2);
    if CheckDelegatedRotation(c, st, e).Ok? {
      CheckedDrtExactly(c, st, e, CheckDelegatedRotation(c, st, e).value);
    }
    if EventSaid(c, e).Ok? && GetStr(e.sad, "t") == Some("drt") && SnOf(e.sad) == Some(st.sn + 1) {
      LinkedRotation(c, st, e, st2);
      RotationExactly(c, st, e, st2);
      if RotatesTo(c, st, e, st2) {
        RotatedDelegator(c, st, e, st2);
      }
      if CheckRotation(c, e).Ok? && GetStr(e.sad, "di").Some? {
        CheckedDrtExactly(c, st, e, DelegatedRotationEvent(CheckRotation(c, e).value, GetStr(e.sad, "di").value));
      }
    }
  }

  lemma RotatedDelegator(c: Suite, st: KeyState, e: Entry, st2: KeyState)
    requires RotatesTo(c, st, e, st2)
    ensures st2.delegator == st.delegator && st2.delegated == st.delegated
  {
    hide Establishes, Committed, UpdateBackers, GetStr, StrArrField;
  }

  /** `verify_update_delegated` accepts exactly the delegated rotations that extend the state and are anchored. */
  lemma UpdateDelegatedExactly(c: Suite, st: KeyState, e: Entry, proof: Proof, source: AnchorSource, st2: KeyState)
    ensures UpdateDelegated(c, st, e, proof, source) == Ok(st2) <==>
      && CarriesOn(c, st, e, st2) && Ilk(e) == "drt" && st2.delegator.Some?
      && VerifyDelegation(st2.prefix, st.sn + 1, st2.said, st2.delegator.value, proof, source).Ok?
  {
    hide CheckDelegatedRotation, ApplyDelegatedRotation, VerifyDelegation, CarriesOn, Ilk;
    DelegatedRotationExactly(c, st, e, st2);
    if CarriesOn(c, st, e, st2) && Ilk(e) == "drt" {
      ExtendedDelegator(c, st, e, st2);
    }
  }

  lemma ExtendedDelegator(c: Suite, st: KeyState, e: Entry, st2: KeyState)
    requires CarriesOn(c, st, e, st2) && Ilk(e) == "drt"
    ensures st2.delegator.Some?
  {
    hide Links, Establishes, Committed, UpdateBackers, GetStr, StrArrField, VerifySigs, AsKeys, Ilk;
  }

  /** A log goes on exactly with such an event. */
  lemma AdvanceExactly(c: Suite, st: KeyState, e: Entry, st2: KeyState)
    ensures Advance(c, st, e) == Ok(st2) <==> CarriesOn(c, st, e, st2)
  {
    hide CheckDelegatedRotation, ApplyDelegatedRotation, NextState, CarriesOn, Ilk;
    DelegatedRotationExactly(c, st, e, st2);
    NextStateExactly(c, st, e, Validation, st2);
  }
}
