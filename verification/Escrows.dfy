/** Events that cannot be taken yet: bounded shelves, witness receipts, pruning, and nothing lost or duplicated. */
module Escrows {
  import opened Wrappers
  import opened Lists
  import opened Serders

  const MAX_ENTRIES := 10000
  const MAX_PER_KEY := 16
  const MAX_RECEIPTS := 4096

  /** (prefix, sequence number) */
  type Key = (string, nat)

  datatype Held = Held(serder: Serder, signatures: string, at: int)

  datatype Pending = Pending(
    serder: Serder, signatures: string, receipts: seq<(string, string)>, backerThreshold: nat, at: int)

  type Shelf = map<Key, seq<Held>>

  datatype EscrowState = EscrowState(outOfOrder: Shelf, partiallySigned: Shelf, witnessed: map<Key, Pending>)

  const EMPTY_ESCROW := EscrowState(map[], map[], map[])

  // ---------- what a shelf holds ----------

  datatype Item = Item(key: Key, held: Held)

  ghost function Tagged(key: Key, hs: seq<Held>): (b: multiset<Item>)
    ensures |b| == |hs|
    ensures forall x :: b[x] == if x.key == key then multiset(hs)[x.held] else 0
  {
    if hs == [] then multiset{}
    else
      assert hs == hs[..|hs| - 1] + [hs[|hs| - 1]];
      Tagged(key, hs[..|hs| - 1]) + multiset{Item(key, hs[|hs| - 1])}
  }

  /** Every event on the shelf, with its key and how often it is there. */
  ghost function Bag(m: Shelf): (b: multiset<Item>)
    ensures forall x :: b[x] == if x.key in m then multiset(m[x.key])[x.held] else 0
  {
    if m == map[] then multiset{}
    else
      var k :| k in m;
      Tagged(k, m[k]) + Bag(m - {k})
  }

  function EntriesAt(m: Shelf, key: Key): seq<Held> {
    if key in m then m[key] else []
  }

  /** Taking one key's list off the shelf. */
  lemma BagWithout(m: Shelf, key: Key)
    ensures Bag(m) == Bag(m - {key}) + Tagged(key, EntriesAt(m, key))
  {
    var whole, rest, taken := Bag(m), Bag(m - {key}), Tagged(key, EntriesAt(m, key));
    forall x ensures whole[x] == (rest + taken)[x] {}
  }

  /** `values().map(len).sum()` */
  method CountEntries(m: Shelf) returns (n: nat)
    ensures n == |Bag(m)|
  {
    n := 0;
    var rest := m;
    while rest != map[]
      invariant n + |Bag(rest)| == |Bag(m)|
      decreases |rest|
    {
      var k :| k in rest;
      BagWithout(rest, k);
      n := n + |rest[k]|;
      rest := rest - {k};
    }
  }

  // ---------- adding ----------

  ghost function Total(s: EscrowState): nat {
    |Bag(s.outOfOrder)| + |Bag(s.partiallySigned)| + |s.witnessed|
  }

  ghost predicate Room(s: EscrowState, m: Shelf, key: Key) {
    Total(s) < MAX_ENTRIES && |EntriesAt(m, key)| < MAX_PER_KEY
  }

  function Added(m: Shelf, key: Key, h: Held): Shelf {
    m[key := EntriesAt(m, key) + [h]]
  }

  lemma BagAdded(m: Shelf, key: Key, h: Held)
    ensures Bag(Added(m, key, h)) == Bag(m) + multiset{Item(key, h)}
  {
  }

  // ---------- pruning ----------

  /** `retain(|e| e.escrowed_at >= cutoff)`, or what it removes. */
  function Retain(hs: seq<Held>, cutoff: int, young: bool): seq<Held> {
    if hs == [] then []
    else
      var init, last := Retain(hs[..|hs| - 1], cutoff, young), hs[|hs| - 1];
      if (last.at >= cutoff) == young then init + [last] else init
  }

  function Pruned(m: Shelf, cutoff: int): Shelf {
    map k | k in m && Retain(m[k], cutoff, true) != [] :: Retain(m[k], cutoff, true)
  }

  function PrunedWitnessed(m: map<Key, Pending>, cutoff: int): map<Key, Pending> {
    map k | k in m && m[k].at >= cutoff :: m[k]
  }

  method RetainYoung(hs: seq<Held>, cutoff: int) returns (r: seq<Held>)
    ensures r == Retain(hs, cutoff, true)
  {
    r := [];
    var i := 0;
    while i < |hs|
      invariant 0 <= i <= |hs|
      invariant r == Retain(hs[..i], cutoff, true)
    {
      assert hs[..i + 1][..i] == hs[..i];
      if hs[i].at >= cutoff {
        r := r + [hs[i]];
      }
      i := i + 1;
    }
    assert hs[..i] == hs;
  }

  method PruneMap(m: Shelf, cutoff: int) returns (r: Shelf)
    ensures r == Pruned(m, cutoff)
  {
    r := map[];
    var left := m.Keys;
    while left != {}
      invariant left <= m.Keys
      invariant r == Pruned(map k | k in m && k !in left :: m[k], cutoff)
      decreases left
    {
      var k :| k in left;
      var kept := RetainYoung(m[k], cutoff);
      ghost var before := map x | x in m && x !in left :: m[x];
      left := left - {k};
      ghost var after := map x | x in m && x !in left :: m[x];
      assert after == before[k := m[k]];
      if kept != [] {
        r := r[k := kept];
      }
    }
    assert (map k | k in m && k !in left :: m[k]) == m;
  }

  method PruneWitnessed(m: map<Key, Pending>, cutoff: int) returns (r: map<Key, Pending>)
    ensures r == PrunedWitnessed(m, cutoff)
  {
    r := map k | k in m && m[k].at >= cutoff :: m[k];
  }

  lemma {:induction false} RetainSplits(hs: seq<Held>, cutoff: int, h: Held)
    ensures multiset(Retain(hs, cutoff, true))[h] == if h.at >= cutoff then multiset(hs)[h] else 0
    ensures multiset(Retain(hs, cutoff, false))[h] == if h.at >= cutoff then 0 else multiset(hs)[h]
  {
    if hs != [] {
      var init := hs[..|hs| - 1];
      RetainSplits(init, cutoff, h);
      assert hs == init + [hs[|hs| - 1]];
    }
  }

  // ---------- receipts ----------

  /** The distinct witness prefixes among the receipts. */
  ghost function Witnesses(receipts: seq<(string, string)>): set<string> {
    set w | w in receipts :: w.0
  }

  ghost predicate Promotable(s: EscrowState, key: Key) {
    key in s.witnessed && |Witnesses(s.witnessed[key].receipts)| >= s.witnessed[key].backerThreshold
  }

  method UniquePrefixes(receipts: seq<(string, string)>) returns (unique: seq<string>)
    ensures Distinct(unique) && Elements(unique) == Witnesses(receipts)
  {
    unique := [];
    var i := 0;
    while i < |receipts|
      invariant 0 <= i <= |receipts|
      invariant Distinct(unique) && Elements(unique) == Witnesses(receipts[..i])
    {
      var w := receipts[i];
      assert receipts[..i + 1] == receipts[..i] + [w];
      WitnessesAppend(receipts[..i], w);
      if w.0 !in unique {
        assert w.0 !in Elements(unique);
        DistinctAppend(unique, w.0);
        ElementsAppend(unique, w.0);
        unique := unique + [w.0];
      } else {
        assert w.0 in Elements(unique);
      }
      i := i + 1;
    }
    assert receipts[..i] == receipts;
  }

  lemma WitnessesAppend(receipts: seq<(string, string)>, w: (string, string))
    ensures Witnesses(receipts + [w]) == Witnesses(receipts) + {w.0}
  {
    assert w in receipts + [w];
    forall x | x in Witnesses(receipts) ensures x in Witnesses(receipts + [w]) {
      var y :| y in receipts && y.0 == x;
      assert y in receipts + [w];
    }
  }

  // ---------- one operation ----------

  datatype Op =
    | AddOutOfOrder(key: Key, held: Held)
    | AddPartiallySigned(key: Key, held: Held)
    | TakeNext(prefix: string, currentSn: nat)
    | AddPartiallyWitnessed(key: Key, pending: Pending)
    | AddReceipt(key: Key, receipt: (string, string))
    | Promote(key: Key)
    | Prune(cutoff: int)

  ghost function Next(s: EscrowState, op: Op): EscrowState {
    match op
    case AddOutOfOrder(key, h) =>
      if Room(s, s.outOfOrder, key) then s.(outOfOrder := Added(s.outOfOrder, key, h)) else s
    case AddPartiallySigned(key, h) =>
      if Room(s, s.partiallySigned, key) then s.(partiallySigned := Added(s.partiallySigned, key, h)) else s
    case TakeNext(prefix, sn) => s.(outOfOrder := s.outOfOrder - {(prefix, sn + 1)})
    case AddPartiallyWitnessed(key, p) => s.(witnessed := s.witnessed[key := p.(receipts := [])])
    case AddReceipt(key, w) =>
      if key in s.witnessed && |s.witnessed[key].receipts| < MAX_RECEIPTS then
        s.(witnessed := s.witnessed[key := s.witnessed[key].(receipts := s.witnessed[key].receipts + [w])])
      else s
    case Promote(key) => if Promotable(s, key) then s.(witnessed := s.witnessed - {key}) else s
    case Prune(cutoff) =>
      EscrowState(Pruned(s.outOfOrder, cutoff), Pruned(s.partiallySigned, cutoff), PrunedWitnessed(s.witnessed, cutoff))
  }

  class Escrow {
    var outOfOrder: Shelf
    var partiallySigned: Shelf
    var witnessed: map<Key, Pending>

    function View(): EscrowState
      reads this
    {
      EscrowState(outOfOrder, partiallySigned, witnessed)
    }

    constructor ()
      ensures View() == EMPTY_ESCROW
    {
      outOfOrder, partiallySigned, witnessed := map[], map[], map[];
    }

    method TotalCount() returns (n: nat)
      ensures n == Total(View())
    {
      var a := CountEntries(outOfOrder);
      var b := CountEntries(partiallySigned);
      n := a + b + |witnessed|;
    }

    method EscrowOutOfOrder(prefix: string, sn: nat, serder: Serder, signatures: string, now: int)
      modifies this`outOfOrder
      ensures View() == Next(old(View()), Op.AddOutOfOrder((prefix, sn), Held(serder, signatures, now)))
    {
      var total := TotalCount();
      if total >= MAX_ENTRIES {
        return;
      }
      var entries := EntriesAt(outOfOrder, (prefix, sn));
      if |entries| >= MAX_PER_KEY {
        return;
      }
      outOfOrder := outOfOrder[(prefix, sn) := entries + [Held(serder, signatures, now)]];
    }

    method EscrowPartiallySigned(prefix: string, sn: nat, serder: Serder, signatures: string, now: int)
      modifies this`partiallySigned
      ensures View() == Next(old(View()), Op.AddPartiallySigned((prefix, sn), Held(serder, signatures, now)))
    {
      var total := TotalCount();
      if total >= MAX_ENTRIES {
        return;
      }
      var entries := EntriesAt(partiallySigned, (prefix, sn));
      if |entries| >= MAX_PER_KEY {
        return;
      }
      partiallySigned := partiallySigned[(prefix, sn) := entries + [Held(serder, signatures, now)]];
    }

    /** The events waiting for the next sequence number, in arrival order; they leave the escrow. */
    method ProcessEscrow(prefix: string, currentSn: nat) returns (ready: seq<Held>)
      modifies this`outOfOrder
      ensures View() == Next(old(View()), TakeNext(prefix, currentSn))
      ensures ready == EntriesAt(old(outOfOrder), (prefix, currentSn + 1))
    {
      var key := (prefix, currentSn + 1);
      ready := EntriesAt(outOfOrder, key);
      outOfOrder := outOfOrder - {key};
    }

    method EscrowPartiallyWitnessed(prefix: string, sn: nat, serder: Serder, signatures: string, backerThreshold: nat,
                                    now: int)
      modifies this`witnessed
      ensures View() ==
        Next(old(View()), Op.AddPartiallyWitnessed((prefix, sn), Pending(serder, signatures, [], backerThreshold, now)))
    {
      witnessed := witnessed[(prefix, sn) := Pending(serder, signatures, [], backerThreshold, now)];
    }

    method AddWitnessReceipt(prefix: string, sn: nat, backer: string, sig: string) returns (added: bool)
      modifies this`witnessed
      ensures View() == Next(old(View()), AddReceipt((prefix, sn), (backer, sig)))
      ensures added <==> (prefix, sn) in old(witnessed) && |old(witnessed)[(prefix, sn)].receipts| < MAX_RECEIPTS
    {
      var key := (prefix, sn);
      if key !in witnessed || |witnessed[key].receipts| >= MAX_RECEIPTS {
        return false;
      }
      var entry := witnessed[key];
      witnessed := witnessed[key := entry.(receipts := entry.receipts + [(backer, sig)])];
      added := true;
    }

    method CheckAndPromoteWitnessed(prefix: string, sn: nat) returns (promoted: Option<Pending>)
      modifies this`witnessed
      ensures View() == Next(old(View()), Promote((prefix, sn)))
      ensures promoted == if Promotable(old(View()), (prefix, sn)) then Some(old(witnessed)[(prefix, sn)]) else None
    {
      var key := (prefix, sn);
      if key in witnessed {
        var entry := witnessed[key];
        var unique := UniquePrefixes(entry.receipts);
        DistinctSize(unique);
        if |unique| >= entry.backerThreshold {
          witnessed := witnessed - {key};
          return Some(entry);
        }
      }
      promoted := None;
    }

    method Prune(cutoff: int)
      modifies this
      ensures View() == Next(old(View()), Op.Prune(cutoff))
    {
      outOfOrder := PruneMap(outOfOrder, cutoff);
      partiallySigned := PruneMap(partiallySigned, cutoff);
      witnessed := PruneWitnessed(witnessed, cutoff);
    }
  }
}
