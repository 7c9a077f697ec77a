/** Checking indexed signatures against a threshold, and witness receipts against a quorum. */
module Signatures {
  import opened Wrappers
  import opened Lists
  import opened Primitives
  import opened Thresholds

  // ---------- indexed signatures ----------

  predicate InRange(s: Siger, keys: seq<string>) {
    s.index < |keys|
  }

  /** Some in-range signature cannot even be checked. */
  predicate Unreadable(c: Suite, msg: string, sigs: seq<Siger>, keys: seq<string>) {
    exists s :: s in sigs && InRange(s, keys) && c.verify(keys[s.index], msg, s.raw) == Malformed
  }

  predicate SignedBy(c: Suite, msg: string, s: Siger, keys: seq<string>) {
    InRange(s, keys) && c.verify(keys[s.index], msg, s.raw) == Check.Valid
  }

  /** The key positions with a valid signature. */
  function Signed(c: Suite, msg: string, sigs: seq<Siger>, keys: seq<string>): set<nat> {
    set s | s in sigs && SignedBy(c, msg, s, keys) :: s.index
  }

  /**
   * The outcome of checking indexed signatures. It depends only on the set of signatures, so
   * neither their order nor repetitions can change it.
   */
  function VerifySigs(c: Suite, msg: string, sigs: seq<Siger>, keys: seq<string>, t: Threshold): Result<()> {
    if Unreadable(c, msg, sigs, keys) then Err(Crypto)
    else if Satisfied(t, Signed(c, msg, sigs, keys), |keys|) then Ok(())
    else Err(ThresholdNotMet)
  }

  method VerifySigsStatic(c: Suite, msg: string, sigs: seq<Siger>, keys: seq<string>, t: Threshold)
    returns (r: Result<()>)
    requires t.Valid()
    ensures r == VerifySigs(c, msg, sigs, keys, t)
  {
    var satisfied: seq<nat> := [];
    var i := 0;
    while i < |sigs|
      invariant 0 <= i <= |sigs|
      invariant !Unreadable(c, msg, sigs[..i], keys)
      invariant Distinct(satisfied) && Elements(satisfied) == Signed(c, msg, sigs[..i], keys)
    {
      var s := sigs[i];
      assert sigs[..i + 1] == sigs[..i] + [s];
      assert s in sigs;
      SignedAppend(c, msg, sigs[..i], s, keys);
      if InRange(s, keys) {
        var check := c.verify(keys[s.index], msg, s.raw);
        if check == Malformed {
          return Err(Crypto);
        }
        if check == Check.Valid && s.index !in satisfied {
          assert s.index !in Elements(satisfied);
          DistinctAppend(satisfied, s.index);
          ElementsAppend(satisfied, s.index);
          satisfied := satisfied + [s.index];
        }
      }
      i := i + 1;
    }
    assert sigs[..i] == sigs;
    DistinctSize(satisfied);
    var met := IsSatisfied(t, satisfied, |keys|);
    r := if met then Ok(()) else Err(ThresholdNotMet);
  }

  lemma SignedAppend(c: Suite, msg: string, sigs: seq<Siger>, s: Siger, keys: seq<string>)
    ensures Signed(c, msg, sigs + [s], keys) ==
      Signed(c, msg, sigs, keys) + if SignedBy(c, msg, s, keys) then {s.index} else {}
  {
    var left, right := Signed(c, msg, sigs + [s], keys), Signed(c, msg, sigs, keys);
    forall k | k in left
      ensures k in right || (SignedBy(c, msg, s, keys) && k == s.index)
    {
      var x :| x in sigs + [s] && SignedBy(c, msg, x, keys) && x.index == k;
      assert x in sigs || x == s;
    }
    forall k | k in right
      ensures k in left
    {
      var x :| x in sigs && SignedBy(c, msg, x, keys) && x.index == k;
      assert x in sigs + [s];
    }
    if SignedBy(c, msg, s, keys) {
      assert s in sigs + [s];
    }
  }

  /**
   * Signatures are accepted exactly when every in-range one can be checked and the key positions that
   * have validly signed meet the threshold: as a count, or clause by clause along the flat list.
   */
  lemma SigsExactly(c: Suite, msg: string, sigs: seq<Siger>, keys: seq<string>, t: Threshold, positions: set<nat>)
    requires t.Valid()
    requires forall i: nat :: i in positions <==>
      i < |keys| && exists s :: s in sigs && s.index == i && c.verify(keys[i], msg, s.raw) == Check.Valid
    ensures VerifySigs(c, msg, sigs, keys, t).Ok? <==>
      && (forall s :: s in sigs && s.index < |keys| ==> c.verify(keys[s.index], msg, s.raw) != Malformed)
      && match t
         case Simple(k) => 0 < k <= |positions|
         case Weighted(clauses) =>
           clauses != [] && forall n :: 0 <= n < |clauses| ==>
             ReachesOne(clauses, n, positions, |keys|) && Fits(clauses, n, positions, |keys|)
  {
    assert Signed(c, msg, sigs, keys) == positions;
    if t.Weighted? {
      WeightedExact(t.clauses, positions, |keys|);
    }
    hide ReachesOne, Fits, ClauseMet;
  }

  /** Reordering or repeating signatures never changes the outcome. */
  lemma SignatureOrderIrrelevant(c: Suite, msg: string, a: seq<Siger>, b: seq<Siger>, keys: seq<string>, t: Threshold)
    requires Elements(a) == Elements(b)
    ensures VerifySigs(c, msg, a, keys, t) == VerifySigs(c, msg, b, keys, t)
  {
    assert forall s :: s in a <==> s in Elements(a);
    assert forall s :: s in b <==> s in Elements(b);
    assert Signed(c, msg, a, keys) == Signed(c, msg, b, keys);
  }

  /** Accepted signatures include at least one valid one, by an in-range key. */
  lemma AcceptedMeansSigned(c: Suite, msg: string, sigs: seq<Siger>, keys: seq<string>, t: Threshold) returns (s: Siger)
    requires t.Valid() && VerifySigs(c, msg, sigs, keys, t).Ok?
    ensures s in sigs && SignedBy(c, msg, s, keys)
  {
    SatisfiedNeedsASignature(t, Signed(c, msg, sigs, keys), |keys|);
    var k :| k in Signed(c, msg, sigs, keys);
    s :| s in sigs && SignedBy(c, msg, s, keys) && s.index == k;
  }

  // ---------- witness receipts ----------

  /** (witness prefix, raw signature) */
  type Couple = (string, string)

  /** The witnesses counted so far, extended by the remaining couples in order. */
  function CountReceipts(c: Suite, msg: string, couples: seq<Couple>, backers: seq<string>, counted: seq<string>)
    : Result<seq<string>>
  {
    if couples == [] then Ok(counted)
    else
      var (prefix, sig) := couples[0];
      if prefix !in backers || prefix in counted then CountReceipts(c, msg, couples[1..], backers, counted)
      else if !c.isKey(prefix) then Err(Crypto)
      else
        match c.verify(prefix, msg, sig)
        case Malformed => Err(Crypto)
        case Valid => CountReceipts(c, msg, couples[1..], backers, counted + [prefix])
        case Invalid => CountReceipts(c, msg, couples[1..], backers, counted)
  }

  function VerifyReceipts(c: Suite, msg: string, couples: seq<Couple>, backers: seq<string>,
                          threshold: nat): Result<()> {
    if threshold == 0 then Ok(())
    else
      var counted :- CountReceipts(c, msg, couples, backers, []);
      if |counted| < threshold then Err(Validation) else Ok(())
  }

  method VerifyWitnessReceiptsStatic(c: Suite, msg: string, couples: seq<Couple>, backers: seq<string>, threshold: nat)
    returns (r: Result<()>)
    ensures r == VerifyReceipts(c, msg, couples, backers, threshold)
  {
    if threshold == 0 {
      return Ok(());
    }
    var valid: seq<string> := [];
    var i := 0;
    while i < |couples|
      invariant 0 <= i <= |couples|
      invariant CountReceipts(c, msg, couples, backers, []) == CountReceipts(c, msg, couples[i..], backers, valid)
    {
      var (prefix, sig) := couples[i];
      assert couples[i..][1..] == couples[i + 1..];
      i := i + 1;
      if prefix !in backers || prefix in valid {
        continue;
      }
      if !c.isKey(prefix) {
        return Err(Crypto);
      }
      var check := c.verify(prefix, msg, sig);
      if check == Malformed {
        return Err(Crypto);
      }
      if check == Check.Valid {
        valid := valid + [prefix];
      }
    }
    r := if |valid| < threshold then Err(Validation) else Ok(());
  }

  predicate Receipted(c: Suite, msg: string, couple: Couple, backers: seq<string>) {
    couple.0 in backers && c.isKey(couple.0) && c.verify(couple.0, msg, couple.1) == Check.Valid
  }

  /** The designated witnesses with a valid receipt. */
  function Witnesses(c: Suite, msg: string, couples: seq<Couple>, backers: seq<string>): set<string> {
    set w | w in couples && Receipted(c, msg, w, backers) :: w.0
  }

  /** No designated witness's receipt is unreadable. */
  predicate ReadableReceipts(c: Suite, msg: string, couples: seq<Couple>, backers: seq<string>) {
    forall w :: w in couples && w.0 in backers ==> c.isKey(w.0) && c.verify(w.0, msg, w.1) != Malformed
  }

  lemma {:induction false} CountedExactly(c: Suite, msg: string, couples: seq<Couple>, backers: seq<string>,
                                          counted: seq<string>)
    requires Distinct(counted)
    ensures ReadableReceipts(c, msg, couples, backers) ==> CountReceipts(c, msg, couples, backers, counted).Ok?
    ensures CountReceipts(c, msg, couples, backers, counted).Ok? ==>
      var all := CountReceipts(c, msg, couples, backers, counted).value;
      Distinct(all) && Elements(all) == Elements(counted) + Witnesses(c, msg, couples, backers)
    decreases |couples|
  {
    if couples == [] {
      assert Witnesses(c, msg, couples, backers) == {};
    } else {
      var w, rest := couples[0], couples[1..];
      WitnessesPrepend(c, msg, w, rest, backers);
      assert couples == [w] + rest;
      assert w in couples;
      forall x | x in rest ensures x in couples {}
      if Receipted(c, msg, w, backers) && w.0 !in counted {
        assert w.0 !in Elements(counted);
        DistinctAppend(counted, w.0);
        ElementsAppend(counted, w.0);
        CountedExactly(c, msg, rest, backers, counted + [w.0]);
      } else {
        assert w.0 in counted ==> w.0 in Elements(counted);
        CountedExactly(c, msg, rest, backers, counted);
      }
    }
  }

  lemma WitnessesPrepend(c: Suite, msg: string, w: Couple, rest: seq<Couple>, backers: seq<string>)
    ensures Witnesses(c, msg, [w] + rest, backers) ==
      (if Receipted(c, msg, w, backers) then {w.0} else {}) + Witnesses(c, msg, rest, backers)
  {
    var left, right := Witnesses(c, msg, [w] + rest, backers), Witnesses(c, msg, rest, backers);
    forall k | k in left
      ensures k in right || (Receipted(c, msg, w, backers) && k == w.0)
    {
      var x :| x in [w] + rest && Receipted(c, msg, x, backers) && x.0 == k;
      assert x in rest || x == w;
    }
    forall k | k in right
      ensures k in left
    {
      var x :| x in rest && Receipted(c, msg, x, backers) && x.0 == k;
      assert x in [w] + rest;
    }
    if Receipted(c, msg, w, backers) {
      assert w in [w] + rest;
    }
  }

  /** Accepted receipts always mean a full quorum of distinct designated witnesses. */
  lemma QuorumReached(c: Suite, msg: string, couples: seq<Couple>, backers: seq<string>, threshold: nat)
    ensures VerifyReceipts(c, msg, couples, backers, threshold).Ok? ==>
      threshold <= |Witnesses(c, msg, couples, backers)|
    ensures ReadableReceipts(c, msg, couples, backers) ==>
      (VerifyReceipts(c, msg, couples, backers, threshold).Ok? <==> threshold <= |Witnesses(c, msg, couples, backers)|)
  {
    CountedExactly(c, msg, couples, backers, []);
    var r := CountReceipts(c, msg, couples, backers, []);
    if r.Ok? {
      DistinctSize(r.value);
      assert Elements<string>([]) == {};
      assert Elements(r.value) == Witnesses(c, msg, couples, backers);
    }
  }

  /** With readable receipts, order and repetition are irrelevant. */
  lemma ReceiptOrderIrrelevant(c: Suite, msg: string, a: seq<Couple>, b: seq<Couple>, backers: seq<string>,
                               threshold: nat)
    requires Elements(a) == Elements(b) && ReadableReceipts(c, msg, a, backers)
    ensures VerifyReceipts(c, msg, a, backers, threshold) == VerifyReceipts(c, msg, b, backers, threshold)
  {
    assert forall w :: w in a <==> w in Elements(a);
    assert forall w :: w in b <==> w in Elements(b);
    QuorumReached(c, msg, a, backers, threshold);
    QuorumReached(c, msg, b, backers, threshold);
    CountedExactly(c, msg, a, backers, []);
    CountedExactly(c, msg, b, backers, []);
    assert Witnesses(c, msg, a, backers) == Witnesses(c, msg, b, backers);
  }

  // ---------- exactly when order matters ----------

  /** A designated witness's receipt that cannot be checked. */
  predicate UnreadableReceipt(c: Suite, msg: string, w: Couple, backers: seq<string>) {
    w.0 in backers && (!c.isKey(w.0) || c.verify(w.0, msg, w.1) == Malformed)
  }

  /** The `i`-th receipt stops the count: unreadable, and its witness not yet counted. */
  predicate Stops(c: Suite, msg: string, couples: seq<Couple>, backers: seq<string>, counted: seq<string>, i: nat)
    requires i < |couples|
  {
    && UnreadableReceipt(c, msg, couples[i], backers)
    && couples[i].0 !in counted
    && forall j :: 0 <= j < i && couples[j].0 == couples[i].0 ==> !Receipted(c, msg, couples[j], backers)
  }

  ghost predicate SomeStops(c: Suite, msg: string, couples: seq<Couple>, backers: seq<string>, counted: seq<string>) {
    exists i :: 0 <= i < |couples| && Stops(c, msg, couples, backers, counted, i)
  }

  /** What the first receipt adds to the witnesses counted. */
  function Counted(c: Suite, msg: string, w: Couple, backers: seq<string>, counted: seq<string>): seq<string> {
    if Receipted(c, msg, w, backers) && w.0 !in counted then counted + [w.0] else counted
  }

  lemma StopsLater(c: Suite, msg: string, couples: seq<Couple>, backers: seq<string>, counted: seq<string>, i: nat)
    requires couples != [] && i < |couples| - 1
    ensures Stops(c, msg, couples[1..], backers, Counted(c, msg, couples[0], backers, counted), i)
      <==> Stops(c, msg, couples, backers, counted, i + 1)
  {
    var w, rest := couples[0], couples[1..];
    assert rest[i] == couples[i + 1];
    if Stops(c, msg, rest, backers, Counted(c, msg, w, backers, counted), i) {
      forall j | 0 <= j < i + 1 && couples[j].0 == rest[i].0 ensures !Receipted(c, msg, couples[j], backers) {
        assert j > 0 ==> rest[j - 1] == couples[j];
      }
    }
    if Stops(c, msg, couples, backers, counted, i + 1) {
      forall j | 0 <= j < i && rest[j].0 == rest[i].0 ensures !Receipted(c, msg, rest[j], backers) {
        assert rest[j] == couples[j + 1];
      }
    }
  }

  lemma SomeStopsStep(c: Suite, msg: string, couples: seq<Couple>, backers: seq<string>, counted: seq<string>)
    requires couples != []
    ensures SomeStops(c, msg, couples, backers, counted) <==>
      Stops(c, msg, couples, backers, counted, 0) ||
      SomeStops(c, msg, couples[1..], backers, Counted(c, msg, couples[0], backers, counted))
  {
    var rest, more := couples[1..], Counted(c, msg, couples[0], backers, counted);
    hide Stops, Counted;
    if SomeStops(c, msg, couples, backers, counted) && !Stops(c, msg, couples, backers, counted, 0) {
      var i :| 0 <= i < |couples| && Stops(c, msg, couples, backers, counted, i);
      StopsLater(c, msg, couples, backers, counted, i - 1);
    }
    if SomeStops(c, msg, rest, backers, more) {
      var i :| 0 <= i < |rest| && Stops(c, msg, rest, backers, more, i);
      StopsLater(c, msg, couples, backers, counted, i);
    }
  }

  /** The count errs exactly when some unreadable receipt is met before a valid one of its witness. */
  lemma {:induction false} CountErrs(c: Suite, msg: string, couples: seq<Couple>, backers: seq<string>,
                                     counted: seq<string>)
    ensures CountReceipts(c, msg, couples, backers, counted).Err? <==> SomeStops(c, msg, couples, backers, counted)
    ensures CountReceipts(c, msg, couples, backers, counted).Err? ==>
      CountReceipts(c, msg, couples, backers, counted) == Err(Crypto)
    decreases |couples|
  {
    if couples != [] {
      SomeStopsStep(c, msg, couples, backers, counted);
      CountErrs(c, msg, couples[1..], backers, Counted(c, msg, couples[0], backers, counted));
      hide SomeStops;
    }
  }

  predicate HasUnreadable(c: Suite, msg: string, couples: seq<Couple>, backers: seq<string>, b: string) {
    exists w :: w in couples && w.0 == b && UnreadableReceipt(c, msg, w, backers)
  }

  predicate HasValid(c: Suite, msg: string, couples: seq<Couple>, backers: seq<string>, b: string) {
    exists w :: w in couples && w.0 == b && Receipted(c, msg, w, backers)
  }

  /**
   * No receipts are needed, or none of a designated witness is unreadable, or some designated
   * witness has an unreadable receipt and no valid one.
   */
  predicate OrderFree(c: Suite, msg: string, couples: seq<Couple>, backers: seq<string>, threshold: nat) {
    || threshold == 0
    || (forall b :: b in backers ==> !HasUnreadable(c, msg, couples, backers, b))
    || (exists b ::
          b in backers && HasUnreadable(c, msg, couples, backers, b) && !HasValid(c, msg, couples, backers, b))
  }

  lemma NoneUnreadable(c: Suite, msg: string, a: seq<Couple>, backers: seq<string>)
    ensures ReadableReceipts(c, msg, a, backers) <==> forall b :: b in backers ==> !HasUnreadable(c, msg, a, backers, b)
  {
    if !ReadableReceipts(c, msg, a, backers) {
      var w :| w in a && UnreadableReceipt(c, msg, w, backers);
      assert HasUnreadable(c, msg, a, backers, w.0);
    }
  }

  /** Unreadable receipts of a witness without a valid one stop the count in any order. */
  lemma AlwaysStops(c: Suite, msg: string, a: seq<Couple>, backers: seq<string>, b: string)
    requires HasUnreadable(c, msg, a, backers, b) && !HasValid(c, msg, a, backers, b)
    ensures SomeStops(c, msg, a, backers, [])
  {
    var w :| w in a && w.0 == b && UnreadableReceipt(c, msg, w, backers);
    var i :| 0 <= i < |a| && a[i] == w;
    forall j | 0 <= j < i && a[j].0 == a[i].0 ensures !Receipted(c, msg, a[j], backers) {
      assert a[j] in a;
    }
    assert Stops(c, msg, a, backers, [], i);
  }

  /** Then every list of the same receipts, in any order and with any repetitions, has one outcome. */
  lemma OrderFreeAgrees(c: Suite, msg: string, a: seq<Couple>, b: seq<Couple>, backers: seq<string>, threshold: nat)
    requires Elements(a) == Elements(b) && OrderFree(c, msg, a, backers, threshold)
    ensures VerifyReceipts(c, msg, a, backers, threshold) == VerifyReceipts(c, msg, b, backers, threshold)
  {
    hide CountReceipts, Stops, UnreadableReceipt, Receipted;
    assert forall w :: w in a <==> w in Elements(a);
    assert forall w :: w in b <==> w in Elements(b);
    NoneUnreadable(c, msg, a, backers);
    if threshold > 0 {
      if ReadableReceipts(c, msg, a, backers) {
        ReceiptOrderIrrelevant(c, msg, a, b, backers, threshold);
      } else {
        var x :| x in backers && HasUnreadable(c, msg, a, backers, x) && !HasValid(c, msg, a, backers, x);
        AlwaysStops(c, msg, a, backers, x);
        AlwaysStops(c, msg, b, backers, x);
        CountErrs(c, msg, a, backers, []);
        CountErrs(c, msg, b, backers, []);
      }
    }
  }

  /** The valid receipts, or the others, in their order. */
  function Pick(c: Suite, msg: string, couples: seq<Couple>, backers: seq<string>, valid: bool): (r: seq<Couple>)
    ensures forall w :: w in r <==> w in couples && Receipted(c, msg, w, backers) == valid
  {
    if couples == [] then []
    else
      var init, last := couples[..|couples| - 1], couples[|couples| - 1];
      assert couples == init + [last];
      Pick(c, msg, init, backers, valid) + if Receipted(c, msg, last, backers) == valid then [last] else []
  }

  lemma PickLast(c: Suite, msg: string, couples: seq<Couple>, backers: seq<string>, valid: bool)
    requires couples != []
    ensures var init, last := Pick(c, msg, couples[..|couples| - 1], backers, valid), couples[|couples| - 1];
      Pick(c, msg, couples, backers, valid) == if Receipted(c, msg, last, backers) == valid then init + [last] else init
  {
    hide Receipted;
  }

  lemma {:induction false} PickSplits(c: Suite, msg: string, couples: seq<Couple>, backers: seq<string>)
    ensures multiset(Pick(c, msg, couples, backers, true) + Pick(c, msg, couples, backers, false)) == multiset(couples)
  {
    if couples == [] {
      assert Pick(c, msg, couples, backers, true) == Pick(c, msg, couples, backers, false) == [];
    } else {
      var init, last := couples[..|couples| - 1], couples[|couples| - 1];
      PickSplits(c, msg, init, backers);
      PickLast(c, msg, couples, backers, true);
      PickLast(c, msg, couples, backers, false);
      hide Pick, Receipted;
      assert couples == init + [last];
      AppendToEither(Pick(c, msg, init, backers, true), Pick(c, msg, init, backers, false), last);
    }
  }

  lemma AppendToEither(a: seq<Couple>, b: seq<Couple>, w: Couple)
    ensures multiset((a + [w]) + b) == multiset(a + b) + multiset{w}
    ensures multiset(a + (b + [w])) == multiset(a + b) + multiset{w}
  {
    assert a + (b + [w]) == (a + b) + [w];
  }

  /** With the valid receipts in front, nothing stops the count if every unreadable one has a valid companion. */
  lemma ValidFirstCounts(c: Suite, msg: string, a: seq<Couple>, backers: seq<string>)
    requires forall b :: b in backers && HasUnreadable(c, msg, a, backers, b) ==> HasValid(c, msg, a, backers, b)
    ensures !SomeStops(c, msg, Pick(c, msg, a, backers, true) + Pick(c, msg, a, backers, false), backers, [])
  {
    var good, bad := Pick(c, msg, a, backers, true), Pick(c, msg, a, backers, false);
    var all := good + bad;
    forall j | 0 <= j < |good| ensures !UnreadableReceipt(c, msg, all[j], backers) {
      assert all[j] in good;
    }
    forall i | 0 <= i < |all| ensures !Stops(c, msg, all, backers, [], i) {
      if UnreadableReceipt(c, msg, all[i], backers) {
        assert all[i] in good || all[i] in bad;
        assert HasUnreadable(c, msg, a, backers, all[i].0);
        var w :| w in a && w.0 == all[i].0 && Receipted(c, msg, w, backers);
        assert w in good;
        var j :| 0 <= j < |good| && good[j] == w;
        assert all[j] == w;
      }
    }
  }

  /** An unreadable receipt in front stops the count at once. */
  lemma UnreadableFirst(c: Suite, msg: string, a: seq<Couple>, backers: seq<string>, i: nat)
    returns (first: seq<Couple>)
    requires i < |a| && UnreadableReceipt(c, msg, a[i], backers)
    ensures multiset(first) == multiset(a) && CountReceipts(c, msg, first, backers, []) == Err(Crypto)
  {
    first := [a[i]] + (a[..i] + a[i + 1..]);
    MoveToFront(a, i);
    hide UnreadableReceipt, Receipted, CountReceipts;
    assert Stops(c, msg, first, backers, [], 0);
    CountErrs(c, msg, first, backers, []);
  }

  lemma MoveToFront(a: seq<Couple>, i: nat)
    requires i < |a|
    ensures multiset([a[i]] + (a[..i] + a[i + 1..])) == multiset(a)
  {
    assert a == (a[..i] + [a[i]]) + a[i + 1..];
  }

  /** Otherwise two rearrangements of the very same receipts end differently. */
  lemma OrderMatters(c: Suite, msg: string, a: seq<Couple>, backers: seq<string>, threshold: nat)
    returns (first: seq<Couple>, second: seq<Couple>)
    requires !OrderFree(c, msg, a, backers, threshold)
    ensures multiset(first) == multiset(a) == multiset(second)
    ensures VerifyReceipts(c, msg, first, backers, threshold) == Err(Crypto)
    ensures VerifyReceipts(c, msg, second, backers, threshold) != Err(Crypto)
  {
    hide CountReceipts, Receipted, SomeStops, UnreadableReceipt, HasValid;
    var b :| b in backers && HasUnreadable(c, msg, a, backers, b);
    var w :| w in a && w.0 == b && UnreadableReceipt(c, msg, w, backers);
    var i :| 0 <= i < |a| && a[i] == w;
    first := UnreadableFirst(c, msg, a, backers, i);
    second := Pick(c, msg, a, backers, true) + Pick(c, msg, a, backers, false);
    PickSplits(c, msg, a, backers);
    hide HasUnreadable;
    ValidFirstCounts(c, msg, a, backers);
    CountErrs(c, msg, second, backers, []);
  }

  /** Every rearrangement of the receipts has the same outcome exactly when `OrderFree` holds. */
  lemma OrderIrrelevantExactly(c: Suite, msg: string, a: seq<Couple>, backers: seq<string>, threshold: nat)
    ensures OrderFree(c, msg, a, backers, threshold) <==>
      forall b :: multiset(b) == multiset(a) ==>
        VerifyReceipts(c, msg, b, backers, threshold) == VerifyReceipts(c, msg, a, backers, threshold)
  {
    hide CountReceipts, OrderFree, VerifyReceipts;
    if OrderFree(c, msg, a, backers, threshold) {
      forall b | multiset(b) == multiset(a)
        ensures VerifyReceipts(c, msg, b, backers, threshold) == VerifyReceipts(c, msg, a, backers, threshold)
      {
        SameElements(a, b);
        OrderFreeAgrees(c, msg, a, b, backers, threshold);
      }
    } else {
      var first, second := OrderMatters(c, msg, a, backers, threshold);
    }
  }

  lemma SameElements(a: seq<Couple>, b: seq<Couple>)
    requires multiset(a) == multiset(b)
    ensures Elements(a) == Elements(b)
  {
    forall w ensures w in a <==> w in b {
      assert w in a <==> w in multiset(a);
      assert w in b <==> w in multiset(b);
    }
  }

  /** For instance: an unreadable second receipt of a counted witness is skipped, a first one is fatal. */
  lemma UnreadableReceiptOrderMatters(c: Suite, msg: string, w: string, good: string, bad: string)
    requires c.isKey(w) && c.verify(w, msg, good) == Check.Valid && c.verify(w, msg, bad) == Malformed
    ensures VerifyReceipts(c, msg, [(w, good), (w, bad)], [w], 1).Ok?
    ensures VerifyReceipts(c, msg, [(w, bad), (w, good)], [w], 1) == Err(Crypto)
  {
    var a, b := [(w, good), (w, bad)], [(w, bad), (w, good)];
    assert a[1..] == [(w, bad)] && a[1..][1..] == [];
    assert CountReceipts(c, msg, a[1..][1..], [w], [w]) == Ok([w]);
    assert CountReceipts(c, msg, a[1..], [w], [w]) == Ok([w]);
    assert [] + [w] == [w];
  }
}
