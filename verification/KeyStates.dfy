/** The key state of one identifier and the three ways an event advances it. */
module KeyStates {
  import opened Wrappers
  import opened Lists
  import opened Numerals
  import opened Primitives
  import opened Thresholds
  import opened Events

  datatype KeyState = KeyState(
    prefix: string,
    sn: nat,
    said: string,
    threshold: Threshold,
    keys: seq<string>,
    nextKeys: seq<string>,
    nextThreshold: Threshold,
    backerThreshold: nat,
    backers: seq<string>,
    config: seq<string>,
    lastDigest: string,
    delegated: bool,
    delegator: Option<string>)

  function ParseSn(s: string): Result<nat> {
    OkOr(Parse(s, 16, U64), Validation)
  }

  function ParseBackerThreshold(s: string): Result<nat> {
    OkOr(Parse(s, 10, U64), Validation)
  }

  // ---------- inception ----------

  function InceptionState(e: InceptionEvent, delegator: Option<string>): Result<KeyState> {
    var bt :- ParseBackerThreshold(e.backerThreshold);
    if bt > |e.backers| then Err(Validation)
    else
      Ok(KeyState(e.prefix, 0, e.said, e.threshold, e.keys, e.nextKeys, e.nextThreshold,
                  bt, e.backers, e.config, e.said, delegator.Some?, delegator))
  }

  function FromInception(e: InceptionEvent): Result<KeyState> {
    var sn :- ParseSn(e.sn);
    if sn != 0 then Err(Validation) else InceptionState(e, None)
  }

  function FromDelegatedInception(e: DelegatedInceptionEvent): Result<KeyState> {
    var sn :- ParseSn(e.base.sn);
    if sn != 0 || e.delegator == "" then Err(Validation) else InceptionState(e.base, Some(e.delegator))
  }

  // ---------- the pre-rotation commitment ----------

  /** `key` is a well-formed key whose qb64 text digests to the committed `digest`. */
  predicate Matches(c: Suite, key: string, digest: string) {
    c.isKey(key) && c.digestCode(digest).Some? && c.digest(c.digestCode(digest).value, key) == digest
  }

  predicate Committed(c: Suite, keys: seq<string>, digests: seq<string>) {
    |keys| == |digests| && forall i :: 0 <= i < |keys| ==> Matches(c, keys[i], digests[i])
  }

  method VerifyNextKeyCommitment(c: Suite, keys: seq<string>, digests: seq<string>) returns (r: Result<()>)
    ensures r == if Committed(c, keys, digests) then Ok(()) else Err(Validation)
  {
    if |keys| != |digests| {
      return Err(Validation);
    }
    var i := 0;
    while i < |keys|
      invariant 0 <= i <= |keys|
      invariant forall j :: 0 <= j < i ==> Matches(c, keys[j], digests[j])
    {
      if !c.isKey(keys[i]) {
        assert !Matches(c, keys[i], digests[i]);
        return Err(Validation);
      }
      var code := c.digestCode(digests[i]);
      if code.None? || c.digest(code.value, keys[i]) != digests[i] {
        assert !Matches(c, keys[i], digests[i]);
        return Err(Validation);
      }
      i := i + 1;
    }
    r := Ok(());
  }

  // ---------- the backer list ----------

  /** `retain(|b| !remove.contains(b))`. */
  function Without(s: seq<string>, remove: seq<string>): seq<string> {
    if s == [] then []
    else
      var init := Without(s[..|s| - 1], remove);
      if s[|s| - 1] in remove then init else init + [s[|s| - 1]]
  }

  /** Push every element that is not there yet. */
  function PushNew(s: seq<string>, add: seq<string>): seq<string> {
    if add == [] then s
    else
      var before := PushNew(s, add[..|add| - 1]);
      if add[|add| - 1] in before then before else before + [add[|add| - 1]]
  }

  function UpdateBackers(backers: seq<string>, remove: seq<string>, add: seq<string>): seq<string> {
    PushNew(Without(backers, remove), add)
  }

  method ComputeBackers(backers: seq<string>, remove: seq<string>, add: seq<string>) returns (updated: seq<string>)
    ensures updated == UpdateBackers(backers, remove, add)
  {
    updated := [];
    var i := 0;
    while i < |backers|
      invariant 0 <= i <= |backers|
      invariant updated == Without(backers[..i], remove)
    {
      assert backers[..i + 1][..i] == backers[..i];
      if backers[i] !in remove {
        updated := updated + [backers[i]];
      }
      i := i + 1;
    }
    assert backers[..i] == backers;
    ghost var kept := updated;
    var j := 0;
    while j < |add|
      invariant 0 <= j <= |add|
      invariant updated == PushNew(kept, add[..j])
    {
      assert add[..j + 1][..j] == add[..j];
      if add[j] !in updated {
        updated := updated + [add[j]];
      }
      j := j + 1;
    }
    assert add[..j] == add;
  }

  lemma {:induction false} WithoutElements(s: seq<string>, remove: seq<string>)
    ensures Elements(Without(s, remove)) == Elements(s) - Elements(remove)
    ensures Distinct(s) ==> Distinct(Without(s, remove))
  {
    if s != [] {
      var init, x := s[..|s| - 1], s[|s| - 1];
      WithoutElements(init, remove);
      assert s == init + [x];
      ElementsAppend(init, x);
      ElementsAppend(Without(init, remove), x);
      if x !in remove && Distinct(s) {
        assert x !in Elements(init);
        DistinctAppend(Without(init, remove), x);
      }
    }
  }

  lemma {:induction false} PushNewElements(s: seq<string>, add: seq<string>)
    ensures Elements(PushNew(s, add)) == Elements(s) + Elements(add)
    ensures Distinct(s) ==> Distinct(PushNew(s, add))
    ensures s <= PushNew(s, add)
  {
    if add != [] {
      var init, x := add[..|add| - 1], add[|add| - 1];
      PushNewElements(s, init);
      assert add == init + [x];
      var before := PushNew(s, init);
      ElementsAppend(init, x);
      ElementsAppend(before, x);
      if x !in before && Distinct(s) {
        DistinctAppend(before, x);
      }
    }
  }

  /** `x` stands somewhere before `y`. */
  ghost predicate Before(s: seq<string>, x: string, y: string) {
    exists i, j :: 0 <= i < j < |s| && s[i] == x && s[j] == y
  }

  lemma {:induction false} WithoutKeepsOrder(s: seq<string>, remove: seq<string>, x: string, y: string)
    requires x !in remove && y !in remove && Before(s, x, y)
    ensures Before(Without(s, remove), x, y)
  {
    var i, j :| 0 <= i < j < |s| && s[i] == x && s[j] == y;
    var init := s[..|s| - 1];
    if j < |s| - 1 {
      assert init[i] == x && init[j] == y;
      WithoutKeepsOrder(init, remove, x, y);
      var w := Without(init, remove);
      var k, l :| 0 <= k < l < |w| && w[k] == x && w[l] == y;
      assert Without(s, remove)[k] == x && Without(s, remove)[l] == y;
    } else {
      WithoutElements(init, remove);
      assert init[i] == x && x in Elements(init);
      var w := Without(init, remove);
      assert x in Elements(w);
      var k :| 0 <= k < |w| && w[k] == x;
      assert Without(s, remove) == w + [y];
      assert (w + [y])[k] == x && (w + [y])[|w|] == y;
    }
  }

  /**
   * The rotated backer list: the old set minus the removed plus the added, without repeats if
   * there were none, with the survivors first and in their old order.
   */
  lemma BackerAlgebra(backers: seq<string>, remove: seq<string>, add: seq<string>)
    ensures var r := UpdateBackers(backers, remove, add);
      && Elements(r) == (Elements(backers) - Elements(remove)) + Elements(add)
      && (Distinct(backers) ==> Distinct(r))
      && (forall x, y :: x !in remove && y !in remove && Before(backers, x, y) ==> Before(r, x, y))
  {
    var kept := Without(backers, remove);
    WithoutElements(backers, remove);
    PushNewElements(kept, add);
    forall x, y | x !in remove && y !in remove && Before(backers, x, y)
      ensures Before(UpdateBackers(backers, remove, add), x, y)
    {
      WithoutKeepsOrder(backers, remove, x, y);
      var i, j :| 0 <= i < j < |kept| && kept[i] == x && kept[j] == y;
      var r := UpdateBackers(backers, remove, add);
      assert r[..|kept|] == kept;
      assert r[i] == kept[i] && r[j] == kept[j];
    }
  }

  /** New backers that are not there yet follow the survivors, in the order they are added. */
  lemma {:induction false} BackersFollow(backers: seq<string>, remove: seq<string>, add: seq<string>)
    requires Distinct(add) && forall x :: x in add ==> x !in Without(backers, remove)
    ensures UpdateBackers(backers, remove, add) == Without(backers, remove) + add
    decreases |add|
  {
    var kept := Without(backers, remove);
    if add == [] {
      assert kept + [] == kept;
    } else {
      var init, x := add[..|add| - 1], add[|add| - 1];
      forall y | y in init ensures y !in kept { assert y in add; }
      BackersFollow(backers, remove, init);
      assert x in add && x !in init;
      assert kept + add == (kept + init) + [x];
    }
  }

  // ---------- rotation and interaction ----------

  function CheckLink(st: KeyState, sn: string, prefix: string, prior: string): Result<()> {
    var n :- ParseSn(sn);
    if n != st.sn + 1 then Err(OutOfOrder(st.sn + 1, n))
    else if prefix != st.prefix then Err(InvalidPrefix)
    else if prior != st.lastDigest then Err(Validation)
    else Ok(())
  }

  function ApplyRotation(c: Suite, st: KeyState, e: RotationEvent): Result<KeyState> {
    var _ :- CheckLink(st, e.sn, e.prefix, e.prior);
    if !Committed(c, e.keys, st.nextKeys) then Err(Validation)
    else
      var bt :- ParseBackerThreshold(e.backerThreshold);
      var backers := UpdateBackers(st.backers, e.backersRemove, e.backersAdd);
      if bt > |backers| then Err(Validation)
      else
        Ok(KeyState(st.prefix, st.sn + 1, e.said, e.threshold, e.keys, e.nextKeys, e.nextThreshold,
                    bt, backers, e.config, e.said, st.delegated, st.delegator))
  }

  function ApplyDelegatedRotation(c: Suite, st: KeyState, e: DelegatedRotationEvent): Result<KeyState> {
    if !st.delegated || st.delegator != Some(e.delegator) then Err(Validation)
    else ApplyRotation(c, st, e.base)
  }

  function ApplyInteraction(st: KeyState, e: InteractionEvent): Result<KeyState> {
    var _ :- CheckLink(st, e.sn, e.prefix, e.prior);
    Ok(st.(sn := st.sn + 1, lastDigest := e.said))
  }

  /** `apply_rotation` with its two loops, against the function that specifies it. */
  method RotateState(c: Suite, st: KeyState, e: RotationEvent) returns (r: Result<KeyState>)
    ensures r == ApplyRotation(c, st, e)
  {
    var link := CheckLink(st, e.sn, e.prefix, e.prior);
    if link.Err? {
      return Err(link.error);
    }
    var committed := VerifyNextKeyCommitment(c, e.keys, st.nextKeys);
    if committed.Err? {
      return Err(committed.error);
    }
    var bt := ParseBackerThreshold(e.backerThreshold);
    if bt.Err? {
      return Err(bt.error);
    }
    var backers := ComputeBackers(st.backers, e.backersRemove, e.backersAdd);
    if bt.value > |backers| {
      return Err(Validation);
    }
    r := Ok(KeyState(st.prefix, st.sn + 1, e.said, e.threshold, e.keys, e.nextKeys, e.nextThreshold,
                     bt.value, backers, e.config, e.said, st.delegated, st.delegator));
  }
}
