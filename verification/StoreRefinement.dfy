/** What the store lists and holds is the verified log, and the key state can be rebuilt from it. */
module StoreRefinement {
  import opened Wrappers
  import opened JsonValues
  import opened Primitives
  import opened Saids
  import opened Signatures
  import opened Histories
  import opened Chains
  import opened Stores
  import opened DirectRuns

  // ---------- the listing ----------

  predicate Increasing(a: seq<nat>) {
    forall i, j :: 0 <= i < j < |a| ==> a[i] < a[j]
  }

  /** Increasing numbers that cover exactly 0..n are 0..n in order. */
  lemma {:induction false} CoverIsIdentity(a: seq<nat>, n: nat)
    requires Increasing(a) && (forall j :: 0 <= j < |a| ==> a[j] < n) && (forall i :: 0 <= i < n ==> i in a)
    ensures |a| == n && forall j :: 0 <= j < |a| ==> a[j] == j
    decreases n
  {
    assert a == [] || a[0] < n;
    if n > 0 {
      assert n - 1 in a;
      var init := a[..|a| - 1];
      assert a[|a| - 1] == n - 1;
      forall i | 0 <= i < n - 1 ensures i in init {
        assert i in a;
        var j :| 0 <= j < |a| && a[j] == i;
        assert init[j] == i;
      }
      CoverIsIdentity(init, n - 1);
    }
  }

  /** Accepted identifiers are dot-free, so no two logs can share a key. */
  lemma LogPrefix(c: Suite, ins: seq<Input>, q: string)
    requires DigestLaw(c) && TextLaw(c) && LogOf(c, ins, q) != []
    ensures '.' !in q
  {
    LogInvariant(c, ins, q);
    hide Replay, LastQuorate, LogOf, Run;
    PrefixIsNotDummy(c, Entries(LogOf(c, ins, q)));
  }

  lemma KeyIsOwn(c: Suite, ins: seq<Input>, key: string, p: string) returns (i: nat)
    requires DigestLaw(c) && TextLaw(c)
    requires key in Run(c, ins).tables.kels && Belongs(key, p)
    ensures i < |LogOf(c, ins, p)| && key == SnKey(p, i) && SplitSn(key) == Some(i)
  {
    TablesInvariant(c, ins);
    hide LogOf, Run, SnKey, SplitSn, Belongs;
    var q;
    q, i :| Indexes(c, ins, key, q, i);
    LogPrefix(c, ins, q);
    LogLength(c, ins, q);
    OwnKeysOnly(p, q, i);
    SplitSnKey(q, i);
  }

  lemma KeyIsListed(c: Suite, ins: seq<Input>, p: string, i: nat)
    requires DigestLaw(c) && TextLaw(c) && i < |LogOf(c, ins, p)|
    ensures SnKey(p, i) in Run(c, ins).tables.kels && Belongs(SnKey(p, i), p) && SplitSn(SnKey(p, i)) == Some(i)
    ensures Run(c, ins).tables.kels[SnKey(p, i)] == SaidOfMessage(LogOf(c, ins, p)[i])
  {
    TablesInvariant(c, ins);
    hide LogOf, Run, SnKey, SplitSn, Belongs, SaidOfMessage;
    LogPrefix(c, ins, p);
    LogLength(c, ins, p);
    OwnKeysOnly(p, p, i);
    SplitSnKey(p, i);
  }

  function Firsts(r: seq<(nat, string)>): (a: seq<nat>)
    ensures |a| == |r| && forall j :: 0 <= j < |r| ==> a[j] == r[j].0
  {
    seq(|r|, j requires 0 <= j < |r| => r[j].0)
  }

  lemma ListedEntry(c: Suite, ins: seq<Input>, p: string, r: seq<(nat, string)>, ks: seq<string>, j: nat)
    requires DigestLaw(c) && TextLaw(c) && LogIn(Run(c, ins).tables.kels, p, r, ks) && j < |r|
    ensures r[j].0 < |LogOf(c, ins, p)| && j < |ks| && ks[j] == SnKey(p, r[j].0)
    ensures r[j].1 == SaidOfMessage(LogOf(c, ins, p)[r[j].0])
  {
    hide LogOf, Run, SnKey, SplitSn, Belongs, SaidOfMessage;
    assert ListedAt(Run(c, ins).tables.kels, p, r[j], ks[j]);
    var i := KeyIsOwn(c, ins, ks[j], p);
    KeyIsListed(c, ins, p, i);
  }

  lemma ListedOnce(c: Suite, ins: seq<Input>, p: string, r: seq<(nat, string)>, ks: seq<string>)
    requires DigestLaw(c) && TextLaw(c) && LogIn(Run(c, ins).tables.kels, p, r, ks)
    ensures Increasing(Firsts(r))
  {
    hide LogOf, Run, SnKey, SplitSn, Belongs, SaidOfMessage;
    forall i, j | 0 <= i < j < |r| ensures r[i].0 < r[j].0 {
      ListedEntry(c, ins, p, r, ks, i);
      ListedEntry(c, ins, p, r, ks, j);
      assert ks[i] != ks[j];
    }
  }

  lemma ListedAll(c: Suite, ins: seq<Input>, p: string, r: seq<(nat, string)>, ks: seq<string>, i: nat)
    requires DigestLaw(c) && TextLaw(c) && LogIn(Run(c, ins).tables.kels, p, r, ks) && i < |LogOf(c, ins, p)|
    ensures i in Firsts(r)
  {
    hide LogOf, Run, SnKey, SplitSn, Belongs, SaidOfMessage;
    KeyIsListed(c, ins, p, i);
    var j :| 0 <= j < |ks| && ks[j] == SnKey(p, i);
    assert ListedAt(Run(c, ins).tables.kels, p, r[j], ks[j]);
    assert Firsts(r)[j] == i;
  }

  /** In every run `get_kel` lists sequence numbers 0, 1, 2, ... with the SAIDs of the accepted events. */
  lemma KelListsLog(c: Suite, ins: seq<Input>, p: string, r: seq<(nat, string)>)
    requires DigestLaw(c) && TextLaw(c) && Listing(Run(c, ins).tables.kels, p, r)
    ensures |r| == |LogOf(c, ins, p)|
    ensures forall i :: 0 <= i < |r| ==> r[i] == (i, SaidOfMessage(LogOf(c, ins, p)[i]))
  {
    hide LogOf, Run, SnKey, SplitSn, Belongs, SaidOfMessage, LogIn;
    var ks :| LogIn(Run(c, ins).tables.kels, p, r, ks);
    forall j | 0 <= j < |r|
      ensures r[j].0 < |LogOf(c, ins, p)| && r[j].1 == SaidOfMessage(LogOf(c, ins, p)[r[j].0])
    {
      ListedEntry(c, ins, p, r, ks, j);
    }
    forall i | 0 <= i < |LogOf(c, ins, p)| ensures i in Firsts(r) {
      ListedAll(c, ins, p, r, ks, i);
    }
    ListedOnce(c, ins, p, r, ks);
    CoverIsIdentity(Firsts(r), |LogOf(c, ins, p)|);
    forall i | 0 <= i < |r| ensures r[i] == (i, SaidOfMessage(LogOf(c, ins, p)[i])) {
      assert Firsts(r)[i] == i;
    }
  }

  /** The listing ends at the verified tip, and is empty exactly for an identifier with no key state. */
  lemma KelEndsAtTip(c: Suite, ins: seq<Input>, p: string, r: seq<(nat, string)>)
    requires DigestLaw(c) && TextLaw(c) && Listing(Run(c, ins).tables.kels, p, r)
    ensures r == [] <==> p !in Run(c, ins).kevers
    ensures r != [] ==>
      var st := Run(c, ins).kevers[p]; |r| == st.sn + 1 && r[|r| - 1] == (st.sn, st.lastDigest)
  {
    KelListsLog(c, ins, p, r);
    LogInvariant(c, ins, p);
    var log := LogOf(c, ins, p);
    hide LogOf, Run, Listing, Replay, LastQuorate, VerifySaid, VerifySigs, GetStr, SnKey;
    if log != [] {
      LastStep(c, Entries(log));
      LastKeysInForce(c, Entries(log));
      SaidFact(c, log[|log| - 1], Run(c, ins).kevers[p]);
    }
  }
}
