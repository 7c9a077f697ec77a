/** Any sequence of escrow operations: bounds, conservation, arrival order, and the one missing cap. */
module EscrowRuns {
  import Wrappers
  import opened Lists
  import opened Escrows

  ghost function Run(ops: seq<Op>): EscrowState {
    if ops == [] then EMPTY_ESCROW else Next(Run(ops[..|ops| - 1]), ops[|ops| - 1])
  }

  // ---------- bounds ----------

  predicate ShelfBound(m: Shelf) {
    forall k :: k in m ==> 1 <= |m[k]| <= MAX_PER_KEY
  }

  ghost predicate ShelvesBound(s: EscrowState) {
    && |Bag(s.outOfOrder)| + |Bag(s.partiallySigned)| <= MAX_ENTRIES
    && ShelfBound(s.outOfOrder) && ShelfBound(s.partiallySigned)
  }

  ghost predicate Bounded(s: EscrowState) {
    ShelvesBound(s) && ReceiptBound(s.witnessed)
  }

  lemma {:induction false} RetainShrinks(hs: seq<Held>, cutoff: int, young: bool)
    ensures |Retain(hs, cutoff, young)| <= |hs|
  {
    if hs != [] {
      RetainShrinks(hs[..|hs| - 1], cutoff, young);
    }
  }

  /** What pruning removes, shelved the same way. */
  function StaleShelf(m: Shelf, cutoff: int): Shelf {
    map k | k in m :: Retain(m[k], cutoff, false)
  }

  /** Pruning removes exactly the entries older than the cutoff. */
  lemma PruneSplits(m: Shelf, cutoff: int)
    ensures Bag(m) == Bag(Pruned(m, cutoff)) + Bag(StaleShelf(m, cutoff))
    ensures forall x :: x in Bag(StaleShelf(m, cutoff)) <==> x in Bag(m) && x.held.at < cutoff
    ensures forall x :: x in Bag(Pruned(m, cutoff)) <==> x in Bag(m) && x.held.at >= cutoff
  {
    forall x: Item
      ensures Bag(m)[x] == Bag(Pruned(m, cutoff))[x] + Bag(StaleShelf(m, cutoff))[x]
      ensures Bag(StaleShelf(m, cutoff))[x] == if x.held.at >= cutoff then 0 else Bag(m)[x]
    {
      if x.key in m {
        RetainSplits(m[x.key], cutoff, x.held);
        assert Retain(m[x.key], cutoff, true) == [] ==> multiset(Retain(m[x.key], cutoff, true))[x.held] == 0;
      }
    }
    var all, kept, stale := Bag(m), Bag(Pruned(m, cutoff)), Bag(StaleShelf(m, cutoff));
    forall x ensures x in stale <==> x in all && x.held.at < cutoff {
      assert stale[x] == if x.held.at >= cutoff then 0 else all[x];
    }
    forall x ensures x in kept <==> x in all && x.held.at >= cutoff {
      assert all[x] == kept[x] + stale[x];
      assert stale[x] == if x.held.at >= cutoff then 0 else all[x];
    }
  }

  lemma PruneBound(m: Shelf, cutoff: int)
    requires ShelfBound(m)
    ensures ShelfBound(Pruned(m, cutoff)) && |Bag(Pruned(m, cutoff))| <= |Bag(m)|
  {
    PruneSplits(m, cutoff);
    assert |Bag(m)| == |Bag(Pruned(m, cutoff)) + Bag(StaleShelf(m, cutoff))|;
    forall k | k in Pruned(m, cutoff) ensures 1 <= |Pruned(m, cutoff)[k]| <= MAX_PER_KEY {
      RetainShrinks(m[k], cutoff, true);
    }
  }

  lemma AddBound(m: Shelf, key: Key, h: Held)
    requires ShelfBound(m) && |EntriesAt(m, key)| < MAX_PER_KEY
    ensures ShelfBound(Added(m, key, h)) && |Bag(Added(m, key, h))| == |Bag(m)| + 1
  {
    hide Bag;
    BagAdded(m, key, h);
  }

  lemma TakeBound(m: Shelf, key: Key)
    requires ShelfBound(m)
    ensures ShelfBound(m - {key}) && |Bag(m - {key})| <= |Bag(m)|
  {
    hide Bag, Tagged;
    BagWithout(m, key);
    assert |Bag(m)| == |Bag(m - {key}) + Tagged(key, EntriesAt(m, key))|;
  }

  predicate ReceiptBound(m: map<Key, Pending>) {
    forall k :: k in m ==> |m[k].receipts| <= MAX_RECEIPTS
  }

  lemma WitnessSteps(s: EscrowState, op: Op)
    requires ReceiptBound(s.witnessed)
    ensures op.AddPartiallyWitnessed? || op.AddReceipt? || op.Promote? || op.Prune? ==>
      ReceiptBound(Next(s, op).witnessed)
    ensures !(op.AddPartiallyWitnessed? || op.AddReceipt? || op.Promote? || op.Prune?) ==>
      Next(s, op).witnessed == s.witnessed
  {
    hide Bag, Promotable, Pruned, Room, Added;
  }

  lemma AddSteps(s: EscrowState, op: Op)
    requires ShelvesBound(s) && (op.AddOutOfOrder? || op.AddPartiallySigned?)
    ensures ShelvesBound(Next(s, op))
  {
    hide Bag, ShelfBound, Added, EntriesAt;
    if op.AddOutOfOrder? && Room(s, s.outOfOrder, op.key) {
      AddBound(s.outOfOrder, op.key, op.held);
    }
    if op.AddPartiallySigned? && Room(s, s.partiallySigned, op.key) {
      AddBound(s.partiallySigned, op.key, op.held);
    }
  }

  lemma TakeSteps(s: EscrowState, op: Op)
    requires ShelvesBound(s) && op.TakeNext?
    ensures ShelvesBound(Next(s, op))
  {
    hide Bag, ShelfBound;
    TakeBound(s.outOfOrder, (op.prefix, op.currentSn + 1));
  }

  lemma PruneSteps(s: EscrowState, op: Op)
    requires ShelvesBound(s) && op.Prune?
    ensures ShelvesBound(Next(s, op))
  {
    hide Bag, ShelfBound, Pruned, PrunedWitnessed;
    PruneBound(s.outOfOrder, op.cutoff);
    PruneBound(s.partiallySigned, op.cutoff);
  }

  lemma ShelfSteps(s: EscrowState, op: Op)
    requires ShelvesBound(s)
    ensures ShelvesBound(Next(s, op))
  {
    if op.AddOutOfOrder? || op.AddPartiallySigned? {
      AddSteps(s, op);
    } else if op.TakeNext? {
      TakeSteps(s, op);
    } else if op.Prune? {
      PruneSteps(s, op);
    } else {
      hide Bag, ShelfBound, Promotable;
    }
  }

  lemma StepBounded(s: EscrowState, op: Op)
    requires Bounded(s)
    ensures Bounded(Next(s, op))
  {
    hide ShelvesBound, Next, ReceiptBound;
    ShelfSteps(s, op);
    WitnessSteps(s, op);
  }

  /**
   * In every run the two shelves together hold at most 10000 events, each key on them 1 to 16, and
   * no entry awaiting witnesses more than 4096 receipts.
   */
  lemma {:induction false} AlwaysBounded(ops: seq<Op>)
    ensures Bounded(Run(ops))
  {
    hide Next, Bounded;
    if ops == [] {
      NothingBounded();
    } else {
      AlwaysBounded(ops[..|ops| - 1]);
      StepBounded(Run(ops[..|ops| - 1]), ops[|ops| - 1]);
    }
  }

  lemma NothingBounded()
    ensures Bounded(EMPTY_ESCROW)
  {
  }

  // ---------- conservation ----------

  datatype Place = OutOfOrder | PartiallySigned | AwaitingWitnesses

  function EventOf(p: Pending): Held {
    Held(p.serder, p.signatures, p.at)
  }

  /** The entries awaiting witnesses, shelved one to a key. */
  function WitnessShelf(m: map<Key, Pending>): Shelf {
    map k | k in m :: [EventOf(m[k])]
  }

  function On(s: EscrowState, place: Place): Shelf {
    match place
    case OutOfOrder => s.outOfOrder
    case PartiallySigned => s.partiallySigned
    case AwaitingWitnesses => WitnessShelf(s.witnessed)
  }

  /** The event this operation puts in a place, if it is not dropped. */
  ghost function EnteredBy(s: EscrowState, op: Op, place: Place): multiset<Item> {
    match op
    case AddOutOfOrder(key, h) =>
      if place.OutOfOrder? && Room(s, s.outOfOrder, key) then multiset{Item(key, h)} else multiset{}
    case AddPartiallySigned(key, h) =>
      if place.PartiallySigned? && Room(s, s.partiallySigned, key) then multiset{Item(key, h)} else multiset{}
    case AddPartiallyWitnessed(key, p) =>
      if place.AwaitingWitnesses? then multiset{Item(key, EventOf(p))} else multiset{}
    case _ => multiset{}
  }

  /** Handed out or promoted to the caller. */
  ghost function TakenBy(s: EscrowState, op: Op, place: Place): multiset<Item> {
    match op
    case TakeNext(prefix, sn) =>
      var key := (prefix, sn + 1);
      if place.OutOfOrder? then Tagged(key, EntriesAt(s.outOfOrder, key)) else multiset{}
    case Promote(key) =>
      if place.AwaitingWitnesses? && Promotable(s, key) then multiset{Item(key, EventOf(s.witnessed[key]))}
      else multiset{}
    case _ => multiset{}
  }

  ghost function PrunedBy(s: EscrowState, op: Op, place: Place): multiset<Item> {
    match op
    case Prune(cutoff) => Bag(StaleShelf(On(s, place), cutoff))
    case _ => multiset{}
  }

  /** Overwritten by a new entry awaiting witnesses at the same key. */
  ghost function ReplacedBy(s: EscrowState, op: Op, place: Place): multiset<Item> {
    match op
    case AddPartiallyWitnessed(key, _) =>
      if place.AwaitingWitnesses? && key in s.witnessed then multiset{Item(key, EventOf(s.witnessed[key]))}
      else multiset{}
    case _ => multiset{}
  }

  ghost function LeftBy(s: EscrowState, op: Op, place: Place): multiset<Item> {
    TakenBy(s, op, place) + PrunedBy(s, op, place) + ReplacedBy(s, op, place)
  }

  ghost function Entered(ops: seq<Op>, place: Place): multiset<Item> {
    if ops == [] then multiset{}
    else Entered(ops[..|ops| - 1], place) + EnteredBy(Run(ops[..|ops| - 1]), ops[|ops| - 1], place)
  }

  ghost function Left(ops: seq<Op>, place: Place): multiset<Item> {
    if ops == [] then multiset{}
    else Left(ops[..|ops| - 1], place) + LeftBy(Run(ops[..|ops| - 1]), ops[|ops| - 1], place)
  }

  /** Pruning the entries awaiting witnesses removes exactly the old ones too. */
  lemma PruneWitnessShelf(m: map<Key, Pending>, cutoff: int)
    ensures WitnessShelf(PrunedWitnessed(m, cutoff)) == Pruned(WitnessShelf(m), cutoff)
    ensures Bag(WitnessShelf(m)) ==
      Bag(WitnessShelf(PrunedWitnessed(m, cutoff))) + Bag(StaleShelf(WitnessShelf(m), cutoff))
    ensures forall k :: k in m && k !in PrunedWitnessed(m, cutoff) <==> k in m && m[k].at < cutoff
  {
    hide Bag;
    forall k | k in m
      ensures Retain([EventOf(m[k])], cutoff, true) == if m[k].at >= cutoff then [EventOf(m[k])] else []
    {
      assert [EventOf(m[k])][..0] == [];
    }
    assert WitnessShelf(PrunedWitnessed(m, cutoff)) == Pruned(WitnessShelf(m), cutoff);
    PruneSplits(WitnessShelf(m), cutoff);
  }

  lemma OneTagged(key: Key, h: Held)
    ensures Tagged(key, [h]) == multiset{Item(key, h)}
  {
    assert [h][..0] == [];
    assert Tagged(key, []) == multiset{};
  }

  /** One entry awaiting witnesses, apart from the others. */
  lemma WitnessApart(m: map<Key, Pending>, key: Key)
    ensures Bag(WitnessShelf(m)) == Bag(WitnessShelf(m - {key})) +
      if key in m then multiset{Item(key, EventOf(m[key]))} else multiset{}
  {
    BagWithout(WitnessShelf(m), key);
    ApartShelf(m, key);
    hide Bag, Tagged, WitnessShelf, EntriesAt;
    if key in m {
      OneTagged(key, EventOf(m[key]));
    } else {
      NoneTagged(key);
    }
  }

  lemma NoneTagged(key: Key)
    ensures Tagged(key, []) == multiset{}
  {
  }

  lemma ApartShelf(m: map<Key, Pending>, key: Key)
    ensures WitnessShelf(m) - {key} == WitnessShelf(m - {key})
    ensures EntriesAt(WitnessShelf(m), key) == if key in m then [EventOf(m[key])] else []
  {
  }

  /** Putting an entry at a key, over whatever was there. */
  lemma PutWitnessed(m: map<Key, Pending>, key: Key, p: Pending)
    ensures Bag(WitnessShelf(m[key := p])) + (if key in m then multiset{Item(key, EventOf(m[key]))} else multiset{})
      == Bag(WitnessShelf(m)) + multiset{Item(key, EventOf(p))}
  {
    hide Bag, WitnessShelf;
    WitnessApart(m, key);
    WitnessApart(m[key := p], key);
    assert m[key := p] - {key} == m - {key};
    var there := if key in m then multiset{Item(key, EventOf(m[key]))} else multiset{};
    Swap(Bag(WitnessShelf(m - {key})), multiset{Item(key, EventOf(p))}, there);
  }

  lemma Swap(a: multiset<Item>, x: multiset<Item>, y: multiset<Item>)
    ensures (a + x) + y == (a + y) + x
    ensures a + multiset{} == a
  {
  }

  lemma ReceiptsAside(m: map<Key, Pending>, key: Key, receipts: seq<(string, string)>)
    requires key in m
    ensures WitnessShelf(m[key := m[key].(receipts := receipts)]) == WitnessShelf(m)
  {
  }

  /** `out` is what leaves, by one of the three ways, and `came` what enters. */
  ghost predicate Moves(s: EscrowState, op: Op, place: Place, out: multiset<Item>, came: multiset<Item>) {
    && LeftBy(s, op, place) == out && EnteredBy(s, op, place) == came
    && Bag(On(Next(s, op), place)) + out == Bag(On(s, place)) + came
  }

  lemma OneWayOut(x: multiset<Item>)
    ensures x + multiset{} + multiset{} == multiset{} + x + multiset{} == multiset{} + multiset{} + x == x
  {
  }

  lemma AddMoves(s: EscrowState, op: Op, place: Place)
    requires !place.AwaitingWitnesses? && (op.AddOutOfOrder? || op.AddPartiallySigned?)
    ensures Moves(s, op, place, multiset{}, EnteredBy(s, op, place))
  {
    hide Bag, Tagged, Room, Added, EntriesAt;
    OneWayOut(multiset{});
    BagAdded(On(s, place), op.key, op.held);
  }

  lemma TakeMoves(s: EscrowState, op: Op)
    requires op.TakeNext?
    ensures Moves(s, op, OutOfOrder, TakenBy(s, op, OutOfOrder), multiset{})
  {
    hide Bag, Tagged, EntriesAt;
    var key := (op.prefix, op.currentSn + 1);
    assert LeftBy(s, op, OutOfOrder) == Tagged(key, EntriesAt(s.outOfOrder, key)) by {
      OneWayOut(TakenBy(s, op, OutOfOrder));
    }
    assert On(Next(s, op), OutOfOrder) == s.outOfOrder - {key};
    BagWithout(s.outOfOrder, key);
    OneWayOut(Bag(s.outOfOrder));
    hide On, Next, LeftBy;
  }

  lemma PutMoves(s: EscrowState, op: Op)
    requires op.AddPartiallyWitnessed?
    ensures Moves(s, op, AwaitingWitnesses, ReplacedBy(s, op, AwaitingWitnesses), EnteredBy(s, op, AwaitingWitnesses))
  {
    hide Bag, Tagged, WitnessShelf;
    OneWayOut(ReplacedBy(s, op, AwaitingWitnesses));
    PutWitnessed(s.witnessed, op.key, op.pending.(receipts := []));
  }

  lemma PromoteMoves(s: EscrowState, op: Op)
    requires op.Promote? && Promotable(s, op.key)
    ensures Moves(s, op, AwaitingWitnesses, TakenBy(s, op, AwaitingWitnesses), multiset{})
  {
    hide Bag, Tagged, WitnessShelf;
    OneWayOut(TakenBy(s, op, AwaitingWitnesses));
    WitnessApart(s.witnessed, op.key);
  }

  lemma PruneMoves(s: EscrowState, op: Op, place: Place)
    requires op.Prune?
    ensures Moves(s, op, place, Bag(StaleShelf(On(s, place), op.cutoff)), multiset{})
  {
    hide Bag, Tagged, WitnessShelf, Pruned, PrunedWitnessed, StaleShelf;
    var out := Bag(StaleShelf(On(s, place), op.cutoff));
    assert LeftBy(s, op, place) == out by { OneWayOut(out); }
    PrunedOn(s, op, place);
    PruneSplits(On(s, place), op.cutoff);
    OneWayOut(Bag(On(s, place)));
    hide On, Next, LeftBy;
  }

  lemma PrunedOn(s: EscrowState, op: Op, place: Place)
    requires op.Prune?
    ensures On(Next(s, op), place) == Pruned(On(s, place), op.cutoff)
  {
    hide Bag, WitnessShelf, Pruned, PrunedWitnessed, StaleShelf;
    if place.AwaitingWitnesses? {
      PruneWitnessShelf(s.witnessed, op.cutoff);
    }
  }

  /** Everything else leaves the place as it is. */
  lemma NothingMoves(s: EscrowState, op: Op, place: Place)
    requires match op
      case AddOutOfOrder(_, _) => place.AwaitingWitnesses?
      case AddPartiallySigned(_, _) => place.AwaitingWitnesses?
      case AddPartiallyWitnessed(_, _) => !place.AwaitingWitnesses?
      case AddReceipt(_, _) => true
      case TakeNext(_, _) => !place.OutOfOrder?
      case Promote(key) => !place.AwaitingWitnesses? || !Promotable(s, key)
      case Prune(_) => false
    ensures Moves(s, op, place, multiset{}, multiset{})
  {
    hide Bag, Tagged, WitnessShelf, Room, Added, EntriesAt, Promotable;
    OneWayOut(multiset{});
    if op.AddReceipt? && op.key in s.witnessed {
      ReceiptsAside(s.witnessed, op.key, s.witnessed[op.key].receipts + [op.receipt]);
    }
    assert LeftBy(s, op, place) == multiset{} == EnteredBy(s, op, place);
    assert On(Next(s, op), place) == On(s, place);
    hide On, Next, LeftBy, EnteredBy;
  }

  lemma StepConserves(s: EscrowState, op: Op, place: Place)
    ensures Bag(On(Next(s, op), place)) + LeftBy(s, op, place) == Bag(On(s, place)) + EnteredBy(s, op, place)
  {
    hide Bag, Next, On, LeftBy, EnteredBy, TakenBy, ReplacedBy, StaleShelf, Promotable;
    if op.Prune? {
      PruneMoves(s, op, place);
    } else if (op.AddOutOfOrder? || op.AddPartiallySigned?) && !place.AwaitingWitnesses? {
      AddMoves(s, op, place);
    } else if op.TakeNext? && place.OutOfOrder? {
      TakeMoves(s, op);
    } else if op.AddPartiallyWitnessed? && place.AwaitingWitnesses? {
      PutMoves(s, op);
    } else if op.Promote? && place.AwaitingWitnesses? && Promotable(s, op.key) {
      PromoteMoves(s, op);
    } else {
      NothingMoves(s, op, place);
    }
  }

  /**
   * In each of the three places, in every run: the events held, plus those handed out or promoted,
   * pruned, or replaced, are exactly the events that got in, each as often as it got in.
   */
  lemma {:induction false} Conservation(ops: seq<Op>, place: Place)
    ensures Bag(On(Run(ops), place)) + Left(ops, place) == Entered(ops, place)
    ensures Left(ops, place) <= Entered(ops, place)
  {
    hide Next, EnteredBy, LeftBy;
    if ops == [] {
      assert Bag(map[]) == multiset{};
      assert WitnessShelf(map[]) == map[];
    } else {
      var init, op := ops[..|ops| - 1], ops[|ops| - 1];
      var s := Run(init);
      Conservation(init, place);
      StepConserves(s, op, place);
      hide On, Bag;
      Chain(Bag(On(Run(ops), place)), LeftBy(s, op, place), Left(init, place), Bag(On(s, place)),
            EnteredBy(s, op, place));
    }
  }

  lemma Chain(now: multiset<Item>, left: multiset<Item>, gone: multiset<Item>, before: multiset<Item>,
              entered: multiset<Item>)
    requires now + left == before + entered
    ensures now + (gone + left) == (before + gone) + entered
  {
    assert now + (gone + left) == (now + left) + gone;
    Swap(before, entered, gone);
  }

  // ---------- arrival order ----------

  /** The addition of this event at this key to one of the two shelves. */
  function AddTo(place: Place, key: Key, h: Held): Op {
    if place.OutOfOrder? then AddOutOfOrder(key, h) else AddPartiallySigned(key, h)
  }

  /** `idx` gives, in increasing order, the operations that brought the events `hs` to `key`. */
  predicate Indexed(ops: seq<Op>, place: Place, key: Key, hs: seq<Held>, idx: seq<nat>) {
    && |idx| == |hs|
    && (forall i, j :: 0 <= i < j < |idx| ==> idx[i] < idx[j])
    && (forall j :: 0 <= j < |idx| ==> idx[j] < |ops| && ops[idx[j]] == AddTo(place, key, hs[j]))
  }

  ghost predicate InArrivalOrder(ops: seq<Op>, place: Place, key: Key, hs: seq<Held>) {
    exists idx :: Indexed(ops, place, key, hs, idx)
  }

  lemma {:induction false} RetainIndexed(ops: seq<Op>, place: Place, key: Key, hs: seq<Held>, idx: seq<nat>,
                                         cutoff: int)
    returns (kept: seq<nat>)
    requires Indexed(ops, place, key, hs, idx)
    ensures Indexed(ops, place, key, Retain(hs, cutoff, true), kept)
    ensures kept == [] || (idx != [] && kept[|kept| - 1] <= idx[|idx| - 1])
  {
    hide Indexed;
    kept := [];
    if hs == [] {
      assert Indexed(ops, place, key, [], []) by { OneLessIndexed(ops, place, key, hs, idx); }
    } else {
      var n := |hs| - 1;
      OneLessIndexed(ops, place, key, hs, idx);
      kept := RetainIndexed(ops, place, key, hs[..n], idx[..n], cutoff);
      if hs[n].at >= cutoff {
        OneMoreIndexed(ops, place, key, Retain(hs[..n], cutoff, true), kept, hs[n], idx[n]);
        kept := kept + [idx[n]];
      }
    }
  }

  lemma OneLessIndexed(ops: seq<Op>, place: Place, key: Key, hs: seq<Held>, idx: seq<nat>)
    requires Indexed(ops, place, key, hs, idx)
    ensures |idx| == |hs| && Indexed(ops, place, key, [], [])
    ensures hs != [] ==>
      var n := |hs| - 1;
      && Indexed(ops, place, key, hs[..n], idx[..n])
      && (n > 0 ==> idx[n - 1] < idx[n])
      && idx[n] < |ops| && ops[idx[n]] == AddTo(place, key, hs[n])
  {
  }

  lemma OneMoreIndexed(ops: seq<Op>, place: Place, key: Key, hs: seq<Held>, idx: seq<nat>, h: Held, i: nat)
    requires Indexed(ops, place, key, hs, idx) && (idx == [] || idx[|idx| - 1] < i)
    requires i < |ops| && ops[i] == AddTo(place, key, h)
    ensures Indexed(ops, place, key, hs + [h], idx + [i])
  {
  }

  lemma StillIndexed(ops: seq<Op>, op: Op, place: Place, key: Key, hs: seq<Held>)
    requires InArrivalOrder(ops, place, key, hs)
    ensures InArrivalOrder(ops + [op], place, key, hs)
  {
    var idx :| Indexed(ops, place, key, hs, idx);
    assert Indexed(ops + [op], place, key, hs, idx);
  }

  lemma AddIndexed(ops: seq<Op>, place: Place, key: Key, hs: seq<Held>, h: Held)
    requires InArrivalOrder(ops, place, key, hs)
    ensures InArrivalOrder(ops + [AddTo(place, key, h)], place, key, hs + [h])
  {
    var idx: seq<nat> :| Indexed(ops, place, key, hs, idx);
    assert Indexed(ops + [AddTo(place, key, h)], place, key, hs + [h], idx + [|ops|]);
  }

  lemma PruneIndexed(ops: seq<Op>, place: Place, key: Key, hs: seq<Held>, cutoff: int)
    requires InArrivalOrder(ops, place, key, hs)
    ensures InArrivalOrder(ops, place, key, Retain(hs, cutoff, true))
  {
    hide Indexed;
    var idx :| Indexed(ops, place, key, hs, idx);
    var kept := RetainIndexed(ops, place, key, hs, idx, cutoff);
  }

  lemma NothingArrived(ops: seq<Op>, place: Place, key: Key)
    ensures InArrivalOrder(ops, place, key, [])
  {
    assert Indexed(ops, place, key, [], []);
  }

  /** What one operation makes of the events at one key of a shelf. */
  lemma EntriesStep(s: EscrowState, op: Op, place: Place, key: Key)
    requires !place.AwaitingWitnesses?
    ensures var hs, now := EntriesAt(On(s, place), key), EntriesAt(On(Next(s, op), place), key);
      || now == hs
      || now == []
      || (exists h :: op == AddTo(place, key, h) && now == hs + [h])
      || (op.Prune? && now == Retain(hs, op.cutoff, true))
  {
    hide Bag, Room, Promotable, PrunedWitnessed, Retain;
    if place.OutOfOrder? && op.AddOutOfOrder? && op.key == key {
      assert op == AddTo(place, key, op.held);
    }
    if place.PartiallySigned? && op.AddPartiallySigned? && op.key == key {
      assert op == AddTo(place, key, op.held);
    }
    if op.Prune? && key !in On(s, place) {
      assert EntriesAt(On(Next(s, op), place), key) == [];
    }
  }

  /**
   * In every run, whatever the clock does, each key of a shelf holds its events in the order in
   * which the operations that brought them were made; what `TakeNext` hands out is such a list.
   */
  lemma {:induction false} ArrivalOrder(ops: seq<Op>, place: Place, key: Key)
    requires !place.AwaitingWitnesses?
    ensures InArrivalOrder(ops, place, key, EntriesAt(On(Run(ops), place), key))
  {
    hide Next, On, InArrivalOrder, Retain;
    if ops == [] {
      NothingShelved(place, key);
      NothingArrived(ops, place, key);
    } else {
      var init, op := ops[..|ops| - 1], ops[|ops| - 1];
      assert init + [op] == ops;
      ArrivalOrder(init, place, key);
      var hs := EntriesAt(On(Run(init), place), key);
      EntriesStep(Run(init), op, place, key);
      StillIndexed(init, op, place, key, hs);
      NothingArrived(ops, place, key);
      if h :| op == AddTo(place, key, h) && EntriesAt(On(Run(ops), place), key) == hs + [h] {
        AddIndexed(init, place, key, hs, h);
      }
      if op.Prune? {
        PruneIndexed(ops, place, key, hs, op.cutoff);
      }
    }
  }

  lemma NothingShelved(place: Place, key: Key)
    ensures EntriesAt(On(EMPTY_ESCROW, place), key) == []
  {
  }

  /**
   * While fewer than 10000 things are held in all and fewer than 16 at its key, an event is kept, last
   * at its key, and is handed out with the rest when its turn comes.
   */
  lemma KeptUntilTaken(s: EscrowState, prefix: string, sn: nat, h: Held)
    requires |Bag(s.outOfOrder)| + |Bag(s.partiallySigned)| + |s.witnessed| < 10000
    ensures var key := (prefix, sn + 1);
      |EntriesAt(s.outOfOrder, key)| < 16 ==>
        var s2 := Next(s, AddOutOfOrder(key, h));
        && EntriesAt(s2.outOfOrder, key) == EntriesAt(s.outOfOrder, key) + [h]
        && EntriesAt(Next(s2, TakeNext(prefix, sn)).outOfOrder, key) == []
        && TakenBy(s2, TakeNext(prefix, sn), OutOfOrder) == Tagged(key, EntriesAt(s.outOfOrder, key) + [h])
    ensures forall key :: |EntriesAt(s.partiallySigned, key)| < 16 ==>
      EntriesAt(Next(s, AddPartiallySigned(key, h)).partiallySigned, key) == EntriesAt(s.partiallySigned, key) + [h]
  {
    hide Bag, Tagged;
  }

  // ---------- the receipts of an entry ----------

  /** The entry last put at this key. */
  ghost function LastPut(ops: seq<Op>, key: Key): Wrappers.Option<Pending> {
    if ops == [] then Wrappers.None
    else
      var op := ops[|ops| - 1];
      if op.AddPartiallyWitnessed? && op.key == key then Wrappers.Some(op.pending) else LastPut(ops[..|ops| - 1], key)
  }

  /** The receipts offered for this key since an entry was last put there. */
  ghost function OfferedSince(ops: seq<Op>, key: Key): seq<(string, string)> {
    if ops == [] then []
    else
      var before, op := OfferedSince(ops[..|ops| - 1], key), ops[|ops| - 1];
      if op.AddPartiallyWitnessed? && op.key == key then []
      else if op.AddReceipt? && op.key == key then before + [op.receipt]
      else before
  }

  function FirstOf(receipts: seq<(string, string)>, n: nat): seq<(string, string)> {
    if |receipts| <= n then receipts else receipts[..n]
  }

  /** What an entry awaiting witnesses is made of. */
  ghost predicate Gathers(m: map<Key, Pending>, ops: seq<Op>, key: Key) {
    key in m ==>
      LastPut(ops, key).Some? &&
      m[key] == LastPut(ops, key).value.(receipts := FirstOf(OfferedSince(ops, key), 4096))
  }

  lemma GatherStep(s: EscrowState, init: seq<Op>, op: Op, key: Key)
    requires Gathers(s.witnessed, init, key)
    ensures Gathers(Next(s, op).witnessed, init + [op], key)
  {
    hide Bag, Room, Added, Pruned, Promotable;
    var ops := init + [op];
    assert ops[..|ops| - 1] == init && ops[|ops| - 1] == op;
  }

  /**
   * In every run an entry awaiting witnesses is the one last put at its key, and holds, in order, the
   * first 4096 receipts offered for that key since.
   */
  lemma {:induction false} ReceiptsGathered(ops: seq<Op>, key: Key)
    ensures Gathers(Run(ops).witnessed, ops, key)
  {
    hide Next, Gathers;
    if ops == [] {
      NothingGathered(key);
    } else {
      var init, op := ops[..|ops| - 1], ops[|ops| - 1];
      ReceiptsGathered(init, key);
      GatherStep(Run(init), init, op, key);
      assert init + [op] == ops;
    }
  }

  lemma NothingGathered(key: Key)
    ensures Gathers(EMPTY_ESCROW.witnessed, [], key)
  {
  }

  /** It is promoted exactly when as many different witnesses as its threshold are among those. */
  lemma PromotedExactly(ops: seq<Op>, key: Key)
    requires key in Run(ops).witnessed
    ensures LastPut(ops, key).Some?
    ensures var signers := set w | w in FirstOf(OfferedSince(ops, key), 4096) :: w.0;
      key !in Next(Run(ops), Promote(key)).witnessed <==> LastPut(ops, key).value.backerThreshold <= |signers|
  {
    ReceiptsGathered(ops, key);
    hide Run, LastPut, OfferedSince, FirstOf;
    var receipts := FirstOf(OfferedSince(ops, key), 4096);
    assert Witnesses(receipts) == set w | w in receipts :: w.0;
  }

  // ---------- the missing cap ----------

  /** A new entry awaiting witnesses, when the escrow is exactly full. */
  ghost predicate Overfills(s: EscrowState, op: Op) {
    op.AddPartiallyWitnessed? && op.key !in s.witnessed && Total(s) == MAX_ENTRIES
  }

  lemma ShelfTotals(s: EscrowState, op: Op)
    requires !op.AddPartiallyWitnessed? && Total(s) <= MAX_ENTRIES
    ensures Total(Next(s, op)) <= MAX_ENTRIES
  {
    hide Bag, Tagged, Pruned, PrunedWitnessed, Promotable, Added, EntriesAt, Retain, StaleShelf;
    if op.AddOutOfOrder? {
      BagAdded(s.outOfOrder, op.key, op.held);
    } else if op.AddPartiallySigned? {
      BagAdded(s.partiallySigned, op.key, op.held);
    } else if op.TakeNext? {
      TakenSize(s.outOfOrder, (op.prefix, op.currentSn + 1));
    } else if op.Promote? {
      FewerKeys(s.witnessed, op.key);
    } else if op.AddReceipt? {
      SameKeys(s, op);
    } else if op.Prune? {
      PrunedSize(s.outOfOrder, op.cutoff);
      PrunedSize(s.partiallySigned, op.cutoff);
      PrunedKeys(s.witnessed, op.cutoff);
    }
  }

  lemma TakenSize(m: Shelf, key: Key)
    ensures |Bag(m - {key})| <= |Bag(m)|
  {
    hide Bag, Tagged;
    BagWithout(m, key);
    assert |Bag(m)| == |Bag(m - {key}) + Tagged(key, EntriesAt(m, key))|;
  }

  lemma PrunedSize(m: Shelf, cutoff: int)
    ensures |Bag(Pruned(m, cutoff))| <= |Bag(m)|
  {
    hide Bag, Pruned, StaleShelf;
    PruneSplits(m, cutoff);
    assert |Bag(m)| == |Bag(Pruned(m, cutoff)) + Bag(StaleShelf(m, cutoff))|;
  }

  lemma FewerKeys(m: map<Key, Pending>, key: Key)
    ensures |m - {key}| <= |m|
  {
    assert (m - {key}).Keys == m.Keys - {key};
    SubsetSize((m - {key}).Keys, m.Keys);
  }

  lemma PrunedKeys(m: map<Key, Pending>, cutoff: int)
    ensures |PrunedWitnessed(m, cutoff)| <= |m|
  {
    assert PrunedWitnessed(m, cutoff).Keys <= m.Keys;
    SubsetSize(PrunedWitnessed(m, cutoff).Keys, m.Keys);
  }

  lemma SameKeys(s: EscrowState, op: Op)
    requires op.AddReceipt?
    ensures |Next(s, op).witnessed| == |s.witnessed|
    ensures Next(s, op).outOfOrder == s.outOfOrder && Next(s, op).partiallySigned == s.partiallySigned
  {
    hide Bag;
    if op.key in s.witnessed {
      assert Next(s, op).witnessed.Keys == s.witnessed.Keys;
    }
  }

  /** From a total within the cap, exactly one kind of step goes past it. */
  lemma CapStep(s: EscrowState, op: Op)
    requires Total(s) <= MAX_ENTRIES
    ensures Total(Next(s, op)) <= MAX_ENTRIES <==> !Overfills(s, op)
  {
    hide Bag;
    if op.AddPartiallyWitnessed? {
      var m := s.witnessed[op.key := op.pending.(receipts := [])];
      assert m.Keys == s.witnessed.Keys + {op.key};
    } else {
      ShelfTotals(s, op);
    }
  }

  /** The total stays within the cap throughout a run exactly when no step of it overfills. */
  lemma {:induction false} CapHoldsExactly(ops: seq<Op>)
    ensures (forall n :: 0 <= n <= |ops| ==> Total(Run(ops[..n])) <= MAX_ENTRIES)
      <==> (forall n :: 0 <= n < |ops| ==> !Overfills(Run(ops[..n]), ops[n]))
  {
    hide Next, Total, Overfills;
    if ops == [] {
      NothingTotal();
    } else {
      var init := ops[..|ops| - 1];
      CapHoldsExactly(init);
      if Total(Run(init)) <= MAX_ENTRIES {
        CapStep(Run(init), ops[|ops| - 1]);
      }
      CapEnds(ops);
    }
  }

  /** The last step decides, given the steps before it. */
  lemma CapEnds(ops: seq<Op>)
    requires ops != []
    requires var init := ops[..|ops| - 1];
      (forall n :: 0 <= n <= |init| ==> Total(Run(init[..n])) <= MAX_ENTRIES)
        <==> (forall n :: 0 <= n < |init| ==> !Overfills(Run(init[..n]), init[n]))
    requires var init := ops[..|ops| - 1];
      Total(Run(init)) <= MAX_ENTRIES ==> (Total(Run(ops)) <= MAX_ENTRIES <==> !Overfills(Run(init), ops[|ops| - 1]))
    ensures (forall n :: 0 <= n <= |ops| ==> Total(Run(ops[..n])) <= MAX_ENTRIES)
      <==> (forall n :: 0 <= n < |ops| ==> !Overfills(Run(ops[..n]), ops[n]))
  {
    hide Run, Total, Overfills;
    var k := |ops| - 1;
    var init := ops[..k];
    assert forall n :: 0 <= n <= k ==> init[..n] == ops[..n];
    assert ops[..|ops|] == ops && init[..k] == init;
    if forall n :: 0 <= n <= |ops| ==> Total(Run(ops[..n])) <= MAX_ENTRIES {
      forall n | 0 <= n <= |init| ensures Total(Run(init[..n])) <= MAX_ENTRIES {
        assert Total(Run(ops[..n])) <= MAX_ENTRIES;
      }
      assert Total(Run(ops[..|ops|])) <= MAX_ENTRIES && Total(Run(ops[..k])) <= MAX_ENTRIES;
      forall n | 0 <= n < |ops| ensures !Overfills(Run(ops[..n]), ops[n]) {
        if n < k {
          assert !Overfills(Run(init[..n]), init[n]);
        }
      }
    }
    if forall n :: 0 <= n < |ops| ==> !Overfills(Run(ops[..n]), ops[n]) {
      forall n | 0 <= n < |init| ensures !Overfills(Run(init[..n]), init[n]) {
        assert !Overfills(Run(ops[..n]), ops[n]);
      }
      assert !Overfills(Run(ops[..k]), ops[k]);
      assert Total(Run(init[..k])) <= MAX_ENTRIES;
      forall n | 0 <= n <= |ops| ensures Total(Run(ops[..n])) <= MAX_ENTRIES {
        if n <= k {
          assert Total(Run(init[..n])) <= MAX_ENTRIES;
        }
      }
    }
  }

  lemma NothingTotal()
    ensures Total(EMPTY_ESCROW) == 0
  {
  }

  ghost function Flood(p: Pending, n: nat): seq<Op> {
    if n == 0 then [] else Flood(p, n - 1) + [AddPartiallyWitnessed(("", n), p)]
  }

  /**
   * The overall cap is not one: entries awaiting witnesses are added without looking at it, so runs
   * reach any total, and from 10000 such entries on both shelves refuse every event.
   */
  lemma {:induction false} WitnessedIsUnbounded(p: Pending, n: nat)
    ensures |Run(Flood(p, n)).witnessed| == n && Run(Flood(p, n)).outOfOrder == map[]
    ensures forall k :: k in Run(Flood(p, n)).witnessed ==> k.0 == "" && k.1 <= n
    ensures n >= MAX_ENTRIES ==>
      forall key, h ::
        && Next(Run(Flood(p, n)), AddOutOfOrder(key, h)) == Run(Flood(p, n))
        && Next(Run(Flood(p, n)), AddPartiallySigned(key, h)) == Run(Flood(p, n))
  {
    if n > 0 {
      WitnessedIsUnbounded(p, n - 1);
      var ops := Flood(p, n);
      assert ops[..|ops| - 1] == Flood(p, n - 1);
      assert ("", n) !in Run(Flood(p, n - 1)).witnessed;
    }
  }
}
