/** Theorems about whole accepted logs. */
module Chains {
  import opened Wrappers
  import opened Lists
  import opened JsonValues
  import opened Primitives
  import opened Versions
  import opened Saids
  import opened Events
  import opened KeyStates
  import opened Signatures
  import opened Kevers
  import opened Histories

  // ---------- one step at a time ----------

  /** The last event of an accepted log either begins it or continues the accepted log before it. */
  lemma {:induction false} LastStep(c: Suite, es: seq<Entry>)
    requires Replay(c, es).Ok?
    ensures es != []
    ensures |es| == 1 ==> Begins(c, es[0], Replay(c, es).value)
    ensures |es| > 1 ==>
      Replay(c, es[..|es| - 1]).Ok? &&
      Continues(c, Replay(c, es[..|es| - 1]).value, es[|es| - 1], Replay(c, es).value)
    ensures Vouched(c, es[|es| - 1], Replay(c, es).value)
  {
    hide Start, Advance, EventSaid, VerifySigs, GetStr, StrArrField, ThresholdField, Committed, UpdateBackers, Ilk;
    if |es| == 1 {
      StartFacts(c, es[0]);
    } else {
      var init := es[..|es| - 1];
      LastStep(c, init);
      AdvanceFacts(c, Replay(c, init).value, es[|es| - 1]);
    }
  }

  lemma {:induction false} PrefixReplays(c: Suite, es: seq<Entry>, n: nat)
    requires Replay(c, es).Ok? && 0 < n <= |es|
    ensures Replay(c, es[..n]).Ok?
    ensures Replay(c, es[..n]).value.prefix == Replay(c, es).value.prefix
    decreases |es|
  {
    hide Begins, Vouched, Installs;
    LastStep(c, es);
    if n == |es| {
      assert es[..n] == es;
    } else {
      assert es[..|es| - 1][..n] == es[..n];
      PrefixReplays(c, es[..|es| - 1], n);
    }
  }

  // ---------- the tip determines the history ----------

  /** The SAIDs of two logs' events do not collide. */
  ghost predicate NoCollision(c: Suite, a: seq<Entry>, b: seq<Entry>) {
    forall x, y :: x in a && y in b ==> Apart(c, x, y)
  }

  /** What is digested for the SAID of an event. */
  function SaidText(c: Suite, e: Entry): Result<string>
    requires e.sad.Obj?
  {
    Serialize(c, Blank(e.sad), e.kind)
  }

  /** Events with one SAID, whatever they are serialized as, have one blanked body. */
  ghost predicate Apart(c: Suite, x: Entry, y: Entry) {
    (&& x.sad.Obj? && y.sad.Obj? && SaidText(c, x).Ok? && SaidText(c, y).Ok?
     && c.digest("E", SaidText(c, x).value) == c.digest("E", SaidText(c, y).value)) ==> Blank(x.sad) == Blank(y.sad)
  }

  /** For JSON bodies: the digest does not collide on their renderings. */
  ghost predicate Separate(c: Suite, x: Json, y: Json) {
    x.Obj? && y.Obj? && SaidOf(c, x) == SaidOf(c, y) ==> Print(Blank(x)) == Print(Blank(y))
  }

  ghost predicate SameBodies(a: seq<Entry>, b: seq<Entry>) {
    |a| == |b| && forall i :: 0 <= i < |a| ==> a[i].sad == b[i].sad
  }

  lemma VerifiedEventSaid(c: Suite, e: Entry)
    requires EventSaid(c, e).Ok?
    ensures e.sad.Obj? && SaidText(c, e).Ok? && GetStr(e.sad, "d") == Some(c.digest("E", SaidText(c, e).value))
  {
    hide Get, Set, Print, Placeholder;
    DummyPlaceholder();
  }

  /** Two verified events with one SAID, neither claiming the dummy as its prefix, have one body. */
  lemma SameSaidSameEvent(c: Suite, x: Entry, y: Entry)
    requires EventSaid(c, x).Ok? && EventSaid(c, y).Ok? && Apart(c, x, y)
    requires GetStr(x.sad, "d") == GetStr(y.sad, "d")
    requires GetStr(x.sad, "i") != Some(DUMMY) && GetStr(y.sad, "i") != Some(DUMMY)
    ensures x.sad == y.sad
  {
    VerifiedEventSaid(c, x);
    VerifiedEventSaid(c, y);
    hide EventSaid, SaidText, Blank, GetStr;
    BlankDetermines(x.sad, y.sad);
  }

  /** The same for JSON bodies. */
  lemma SameSaidSameBody(c: Suite, x: Json, y: Json)
    requires VerifySaid(c, x).Ok? && VerifySaid(c, y).Ok? && Separate(c, x, y)
    requires GetStr(x, "d") == GetStr(y, "d")
    requires GetStr(x, "i") != Some(DUMMY) && GetStr(y, "i") != Some(DUMMY)
    ensures x == y
  {
    var e, f := Entry("", x, [], JsonKind), Entry("", y, [], JsonKind);
    JsonSaid(c, e);
    JsonSaid(c, f);
    hide VerifySaid, EventSaid, Blank, GetStr;
    if x.Obj? && y.Obj? && SaidOf(c, x) == SaidOf(c, y) {
      PrintInjective(Blank(x), Blank(y));
    }
    SameSaidSameEvent(c, e, f);
  }

  /** No accepted identifier is the dummy that stands in for a digest. */
  lemma {:induction false} PrefixIsNotDummy(c: Suite, es: seq<Entry>)
    requires DigestLaw(c) && TextLaw(c) && Replay(c, es).Ok?
    ensures Replay(c, es).value.prefix != DUMMY && '.' !in Replay(c, es).value.prefix
    decreases |es|
  {
    LastStep(c, es);
    var st := Replay(c, es).value;
    hide SaidText, EventSaid, VerifySigs, GetStr, Replay;
    if |es| == 1 {
      VerifiedEventSaid(c, es[0]);
      if st.prefix == st.lastDigest {
        assert c.digestCode(st.prefix).Some?;
      }
      NotDummy(c, st.prefix);
    } else {
      PrefixIsNotDummy(c, es[..|es| - 1]);
    }
  }

  /** An event that begins a log cannot continue one. */
  lemma BeginOrContinue(c: Suite, e: Entry, f: Entry, st: KeyState, st0: KeyState, st1: KeyState)
    requires Begins(c, e, st) && Continues(c, st0, f, st1)
    ensures e.sad != f.sad
  {
    hide Vouched, Installs, GetStr;
  }

  lemma LastIsNotDummy(c: Suite, es: seq<Entry>)
    requires DigestLaw(c) && TextLaw(c) && Replay(c, es).Ok?
    ensures es != [] && GetStr(es[|es| - 1].sad, "i") != Some(DUMMY)
    ensures EventSaid(c, es[|es| - 1]).Ok?
    ensures GetStr(es[|es| - 1].sad, "d") == Some(Replay(c, es).value.lastDigest)
  {
    LastStep(c, es);
    PrefixIsNotDummy(c, es);
    hide EventSaid, VerifySigs, GetStr, Replay;
  }

  /** Two logs ending in the same event are equally recent, and so are the logs before it. */
  lemma SameLastEvent(c: Suite, a: seq<Entry>, b: seq<Entry>)
    requires Replay(c, a).Ok? && Replay(c, b).Ok? && a != [] && b != [] && a[|a| - 1].sad == b[|b| - 1].sad
    ensures |a| == 1 <==> |b| == 1
    ensures |a| > 1 ==>
      Replay(c, a[..|a| - 1]).Ok? && Replay(c, b[..|b| - 1]).Ok? &&
      Replay(c, a[..|a| - 1]).value.lastDigest == Replay(c, b[..|b| - 1]).value.lastDigest
  {
    hide Begins, Continues, Vouched, Replay;
    LastStep(c, a);
    LastStep(c, b);
    var x, y := a[|a| - 1], b[|b| - 1];
    if |a| == 1 && |b| > 1 {
      BeginOrContinue(c, x, y, Replay(c, a).value, Replay(c, b[..|b| - 1]).value, Replay(c, b).value);
    } else if |a| > 1 && |b| == 1 {
      BeginOrContinue(c, y, x, Replay(c, b).value, Replay(c, a[..|a| - 1]).value, Replay(c, a).value);
    } else if |a| > 1 && |b| > 1 {
      NamesPrior(c, x, Replay(c, a[..|a| - 1]).value, Replay(c, a).value);
      NamesPrior(c, y, Replay(c, b[..|b| - 1]).value, Replay(c, b).value);
    }
  }

  lemma NamesPrior(c: Suite, e: Entry, st: KeyState, st2: KeyState)
    requires Continues(c, st, e, st2)
    ensures GetStr(e.sad, "p") == Some(st.lastDigest)
  {
    hide Vouched, Installs, GetStr;
  }

  lemma SameTipSameEvent(c: Suite, a: seq<Entry>, b: seq<Entry>)
    requires DigestLaw(c) && TextLaw(c) && NoCollision(c, a, b)
    requires Replay(c, a).Ok? && Replay(c, b).Ok?
    requires Replay(c, a).value.lastDigest == Replay(c, b).value.lastDigest
    ensures a != [] && b != [] && a[|a| - 1].sad == b[|b| - 1].sad
  {
    hide Replay, EventSaid, GetStr, Apart, DigestLaw, TextLaw;
    LastIsNotDummy(c, a);
    LastIsNotDummy(c, b);
    SameSaidSameEvent(c, a[|a| - 1], b[|b| - 1]);
  }

  lemma NoCollisionBefore(c: Suite, a: seq<Entry>, b: seq<Entry>)
    requires NoCollision(c, a, b) && a != [] && b != []
    ensures NoCollision(c, a[..|a| - 1], b[..|b| - 1])
  {
    hide Apart;
    var ia, ib := a[..|a| - 1], b[..|b| - 1];
    forall u, v | u in ia && v in ib ensures Apart(c, u, v) {
      assert u in a && v in b;
    }
  }

  lemma SameBodiesAppend(a: seq<Entry>, b: seq<Entry>)
    requires a != [] && b != [] && a[|a| - 1].sad == b[|b| - 1].sad
    requires SameBodies(a[..|a| - 1], b[..|b| - 1])
    ensures SameBodies(a, b)
  {
    forall i | 0 <= i < |a|
      ensures a[i].sad == b[i].sad
    {
      if i < |a| - 1 {
        assert a[..|a| - 1][i].sad == b[..|b| - 1][i].sad;
      }
    }
  }

  /** Two accepted logs that end in the same digest are the same sequence of events. */
  lemma {:induction false} TipDeterminesHistory(c: Suite, a: seq<Entry>, b: seq<Entry>)
    requires DigestLaw(c) && TextLaw(c) && NoCollision(c, a, b)
    requires Replay(c, a).Ok? && Replay(c, b).Ok?
    requires Replay(c, a).value.lastDigest == Replay(c, b).value.lastDigest
    ensures SameBodies(a, b)
    decreases |a| + |b|
  {
    hide Replay, NoCollision, DigestLaw, TextLaw;
    SameTipSameEvent(c, a, b);
    SameLastEvent(c, a, b);
    if |a| > 1 {
      NoCollisionBefore(c, a, b);
      TipDeterminesHistory(c, a[..|a| - 1], b[..|b| - 1]);
      SameBodiesAppend(a, b);
    }
  }

  // ---------- pre-rotation ----------

  /** The index of the latest establishment event. */
  function LatestEstablishment(es: seq<Entry>): (i: nat)
    requires es != []
    ensures i < |es|
  {
    if |es| > 1 && Ilk(es[|es| - 1]) == "ixn" then LatestEstablishment(es[..|es| - 1]) else |es| - 1
  }

  /** What is known of an accepted log at its last event. */
  ghost predicate KeysInForce(c: Suite, es: seq<Entry>) {
    es != [] && Replay(c, es).Ok? &&
    var st, last := Replay(c, es).value, es[|es| - 1];
    var est := es[LatestEstablishment(es)];
    // the sequence number counts the events after inception
    && st.sn == |es| - 1
    // the keys, digests and threshold in force are those of the latest establishment event
    && Installs(est, st)
    // the last event was signed to that threshold by those keys
    && VerifySigs(c, last.raw, last.sigs, EventKeys(est.sad), st.threshold).Ok?
    // a later establishment event honours the previous one's commitment, position by position
    && (|es| > 1 && Ilk(last) != "ixn" ==>
          var prev := es[LatestEstablishment(es[..|es| - 1])];
          Committed(c, EventKeys(last.sad), EventDigests(prev.sad)))
  }

  lemma {:induction false} LastKeysInForce(c: Suite, es: seq<Entry>)
    requires Replay(c, es).Ok?
    ensures KeysInForce(c, es)
    decreases |es|
  {
    hide EventSaid, VerifySigs, GetStr, StrArrField, ThresholdField, Committed, UpdateBackers, Ilk, EventKeys,
         EventDigests, Replay;
    LastStep(c, es);
    if |es| > 1 {
      LastKeysInForce(c, es[..|es| - 1]);
    }
  }

  /** Pre-rotation holds at every point of every accepted log. */
  lemma PreRotation(c: Suite, es: seq<Entry>)
    requires Replay(c, es).Ok?
    ensures forall n :: 0 < n <= |es| ==> KeysInForce(c, es[..n])
  {
    forall n | 0 < n <= |es|
      ensures KeysInForce(c, es[..n])
    {
      PrefixReplays(c, es, n);
      LastKeysInForce(c, es[..n]);
    }
  }

  /** Interactions followed by one rotation. */
  predicate FirstRotation(more: seq<Entry>) {
    more != [] && Ilk(more[|more| - 1]) != "ixn" && forall i :: 0 <= i < |more| - 1 ==> Ilk(more[i]) == "ixn"
  }

  lemma {:induction false} InteractionsKeepCommitment(c: Suite, log: seq<Entry>, more: seq<Entry>)
    requires Replay(c, log).Ok? && Replay(c, log + more).Ok?
    requires forall i :: 0 <= i < |more| ==> Ilk(more[i]) == "ixn"
    ensures Replay(c, log + more).value.nextKeys == Replay(c, log).value.nextKeys
    decreases |more|
  {
    if more == [] {
      assert log + more == log;
    } else {
      var es, init := log + more, more[..|more| - 1];
      assert es[..|es| - 1] == log + init;
      LastStep(c, log);
      LastStep(c, es);
      InteractionsKeepCommitment(c, log, init);
    }
  }

  /** The keys of the first rotation after `log` match the digests `log` ends with. */
  lemma FirstRotationCommitted(c: Suite, log: seq<Entry>, more: seq<Entry>)
    requires Replay(c, log).Ok? && Replay(c, log + more).Ok? && FirstRotation(more)
    ensures Committed(c, EventKeys(more[|more| - 1].sad), Replay(c, log).value.nextKeys)
  {
    hide Replay, Committed, Begins, Vouched, EventSaid, GetStr, UpdateBackers, StrArrField, EventKeys, EventDigests,
         ThresholdField, Ilk;
    LastStep(c, log);
    var es, init := log + more, more[..|more| - 1];
    assert es[..|es| - 1] == log + init && es[|es| - 1] == more[|more| - 1];
    LastStep(c, es);
    InteractionsKeepCommitment(c, log, init);
  }

  /** Digesting keys under any one algorithm does not collide on these keys. */
  ghost predicate NoKeyCollision(c: Suite, ks: seq<string>, ls: seq<string>) {
    forall k, l, code :: k in ks && l in ls && c.digest(code, k) == c.digest(code, l) ==> k == l
  }

  /** Whatever continues a log, its first rotation can install only one list of keys. */
  lemma FirstRotationIsForced(c: Suite, log: seq<Entry>, a: seq<Entry>, b: seq<Entry>)
    requires Replay(c, log).Ok? && Replay(c, log + a).Ok? && Replay(c, log + b).Ok?
    requires FirstRotation(a) && FirstRotation(b)
    requires NoKeyCollision(c, EventKeys(a[|a| - 1].sad), EventKeys(b[|b| - 1].sad))
    ensures EventKeys(a[|a| - 1].sad) == EventKeys(b[|b| - 1].sad)
  {
    FirstRotationCommitted(c, log, a);
    FirstRotationCommitted(c, log, b);
    var ks, ls, digests := EventKeys(a[|a| - 1].sad), EventKeys(b[|b| - 1].sad), Replay(c, log).value.nextKeys;
    forall i | 0 <= i < |ks|
      ensures ks[i] == ls[i]
    {
      assert Matches(c, ks[i], digests[i]) && Matches(c, ls[i], digests[i]);
      assert ks[i] in ks && ls[i] in ls;
    }
  }

  // ---------- backers ----------

  /** A repeat-free inception backer list stays repeat-free, and the quorum stays reachable. */
  lemma {:induction false} BackersNeverRepeat(c: Suite, es: seq<Entry>)
    requires Replay(c, es).Ok?
    requires StrArrField(es[0].sad, "b").Ok? ==> Distinct(StrArrField(es[0].sad, "b").value)
    ensures Distinct(Replay(c, es).value.backers)
    ensures Replay(c, es).value.backerThreshold <= |Elements(Replay(c, es).value.backers)|
    decreases |es|
  {
    LastStep(c, es);
    var st := Replay(c, es).value;
    hide Replay, Committed, VerifySigs, EventSaid, GetStr, StrArrField, UpdateBackers, Distinct, Elements;
    if |es| > 1 {
      var init := es[..|es| - 1];
      BackersNeverRepeat(c, init);
      var prev, last := Replay(c, init).value, es[|es| - 1];
      if Ilk(last) != "ixn" {
        var br, ba :| StrArrField(last.sad, "br") == Ok(br) && StrArrField(last.sad, "ba") == Ok(ba) &&
          st.backers == UpdateBackers(prev.backers, br, ba);
        BackerAlgebra(prev.backers, br, ba);
      }
    }
    DistinctSize(st.backers);
  }

  // ---------- shape ----------

  /** One inception followed by events of its own family, under one lifelong delegator. */
  ghost predicate Shaped(es: seq<Entry>, st: KeyState) {
    && es != [] && Ilk(es[0]) == (if st.delegated then "dip" else "icp")
    && (st.delegated <==> st.delegator.Some?)
    && (forall i :: 1 <= i < |es| ==> Ilk(es[i]) == "ixn" || Ilk(es[i]) == (if st.delegated then "drt" else "rot"))
    && (forall i :: 0 <= i < |es| ==> GetStr(es[i].sad, "i") == Some(st.prefix))
    && (st.delegated ==> forall i :: 0 <= i < |es| && Ilk(es[i]) != "ixn" ==> GetStr(es[i].sad, "di") == st.delegator)
  }

  /** Every accepted log has that shape. */
  lemma {:induction false} LogShape(c: Suite, es: seq<Entry>)
    requires Replay(c, es).Ok?
    ensures Shaped(es, Replay(c, es).value)
    decreases |es|
  {
    hide Replay, Committed, VerifySigs, EventSaid, GetStr, StrArrField, ThresholdField, UpdateBackers, Ilk;
    LastStep(c, es);
    if |es| > 1 {
      var init, last := es[..|es| - 1], es[|es| - 1];
      LogShape(c, init);
      ShapeStep(c, init, Replay(c, init).value, last, Replay(c, es).value);
      assert es == init + [last];
    }
  }

  lemma ShapeStep(c: Suite, init: seq<Entry>, st: KeyState, e: Entry, st2: KeyState)
    requires Shaped(init, st) && Continues(c, st, e, st2)
    ensures Shaped(init + [e], st2)
  {
    hide Committed, VerifySigs, EventSaid, GetStr, StrArrField, UpdateBackers, Ilk, Installs;
  }
}
