/** Signing thresholds: simple counts and weighted clauses summed with checked `u64` fractions. */
module Thresholds {
  import opened Wrappers
  import opened Numerals
  import opened JsonValues
  import opened Lists

  datatype Weight = Weight(num: nat, den: nat) {
    /** What `Weight::new` guarantees of a `u32` pair. */
    predicate Valid() {
      num < U32 && 0 < den < U32
    }
  }

  datatype Threshold = Simple(count: nat) | Weighted(clauses: seq<seq<Weight>>) {
    predicate Valid() {
      Weighted? ==> forall c, j :: 0 <= c < |clauses| && 0 <= j < |clauses[c]| ==> clauses[c][j].Valid()
    }
  }

  // ---------- the checked sum ----------

  /** The running `total_num / total_den`, never reduced. */
  datatype Fraction = Fraction(num: nat, den: nat)

  function Plus(f: Fraction, w: Weight): Fraction {
    Fraction(f.num * w.den + w.num * f.den, f.den * w.den)
  }

  predicate Counts(position: nat, signed: set<nat>, total: nat) {
    position < total && position in signed
  }

  /** The sum over one clause whose first weight sits at flat key position `base`. */
  function ClauseSum(clause: seq<Weight>, base: nat, signed: set<nat>, total: nat): Fraction {
    if clause == [] then Fraction(0, 1)
    else
      var n := |clause| - 1;
      var before := ClauseSum(clause[..n], base, signed, total);
      if Counts(base + n, signed, total) then Plus(before, clause[n]) else before
  }

  /** The flat key position of the first weight of clause `c`. */
  function Base(clauses: seq<seq<Weight>>, c: nat): nat
    requires c <= |clauses|
  {
    if c == 0 then 0 else Base(clauses, c - 1) + |clauses[c - 1]|
  }

  predicate ClauseMet(clauses: seq<seq<Weight>>, c: nat, signed: set<nat>, total: nat)
    requires c < |clauses|
  {
    var f := ClauseSum(clauses[c], Base(clauses, c), signed, total);
    f.den <= f.num < U64
  }

  /** The set of key positions `signed` meets the threshold. */
  predicate Satisfied(t: Threshold, signed: set<nat>, total: nat) {
    match t
    case Simple(k) => 0 < k <= |signed|
    case Weighted(clauses) => clauses != [] && forall c :: 0 <= c < |clauses| ==> ClauseMet(clauses, c, signed, total)
  }

  function CheckedMul(a: nat, b: nat): Option<nat> {
    if a * b < U64 then Some(a * b) else None
  }

  function CheckedAdd(a: nat, b: nat): Option<nat> {
    if a + b < U64 then Some(a + b) else None
  }

  function CheckedPlus(f: Fraction, w: Weight): Option<Fraction> {
    match (CheckedMul(f.num, w.den), CheckedMul(w.num, f.den), CheckedMul(f.den, w.den))
    case (Some(a), Some(b), Some(d)) =>
      (match CheckedAdd(a, b)
       case Some(n) => Some(Fraction(n, d))
       case None => None)
    case _ => None
  }

  method IsSatisfied(t: Threshold, indices: seq<nat>, total: nat) returns (met: bool)
    requires t.Valid()
    ensures t.Simple? ==> (met <==> 0 < t.count <= |indices|)
    ensures t.Weighted? ==> (met <==> Satisfied(t, Elements(indices), total))
  {
    match t
    case Simple(k) =>
      met := k > 0 && |indices| >= k;
    case Weighted(clauses) =>
      if clauses == [] {
        return false;
      }
      ghost var signed := Elements(indices);
      var keyIdx := 0;
      var c := 0;
      while c < |clauses|
        invariant 0 <= c <= |clauses|
        invariant keyIdx == Base(clauses, c)
        invariant forall k :: 0 <= k < c ==> ClauseMet(clauses, k, signed, total)
      {
        var clause := clauses[c];
        ghost var base := keyIdx;
        var sum := Fraction(0, 1);
        var j := 0;
        while j < |clause|
          invariant 0 <= j <= |clause|
          invariant keyIdx == base + j
          invariant sum == ClauseSum(clause[..j], base, signed, total)
          invariant sum.num < U64 && 0 < sum.den < U64
        {
          assert clause[..j + 1][..j] == clause[..j];
          SumGrows(clause, j + 1, base, signed, total);
          if keyIdx < total && keyIdx in indices {
            CheckedPlusExact(sum, clause[j]);
            match CheckedPlus(sum, clause[j])
            case Some(next) =>
              sum := next;
            case None =>
              assert !ClauseMet(clauses, c, signed, total);
              return false;
          }
          keyIdx := keyIdx + 1;
          j := j + 1;
        }
        assert clause[..|clause|] == clause;
        if sum.num < sum.den {
          assert !ClauseMet(clauses, c, signed, total);
          return false;
        }
        c := c + 1;
      }
      met := true;
  }

  /** A checked step fails only when the exact numerator or denominator leaves the `u64` range. */
  lemma CheckedPlusExact(f: Fraction, w: Weight)
    requires w.den > 0 && f.den > 0
    ensures CheckedPlus(f, w) == (if Plus(f, w).num < U64 && Plus(f, w).den < U64 then Some(Plus(f, w)) else None)
    ensures Plus(f, w).den > 0
  {
    Positive(f.den, w.den);
  }

  lemma Positive(a: nat, b: nat)
    requires a > 0 && b > 0
    ensures a * b > 0 && a * b >= a
  {
  }

  lemma PlusGrows(f: Fraction, w: Weight)
    requires f.den > 0 && w.den > 0
    ensures Plus(f, w).num >= f.num && Plus(f, w).den >= f.den > 0
  {
    Positive(f.den, w.den);
    if f.num > 0 { Positive(f.num, w.den); }
  }

  /** The unreduced sum never shrinks along a clause, so an overflow part way is an overflow at the end. */
  lemma {:induction false} SumGrows(clause: seq<Weight>, j: nat, base: nat, signed: set<nat>, total: nat)
    requires j <= |clause|
    requires forall k :: 0 <= k < |clause| ==> clause[k].den > 0
    ensures ClauseSum(clause, base, signed, total).num >= ClauseSum(clause[..j], base, signed, total).num
    ensures ClauseSum(clause, base, signed, total).den >= ClauseSum(clause[..j], base, signed, total).den > 0
  {
    if j == |clause| {
      assert clause[..j] == clause;
      if j > 0 {
        SumGrows(clause[..j - 1], j - 1, base, signed, total);
        PlusGrows(ClauseSum(clause[..j - 1], base, signed, total), clause[j - 1]);
      }
    } else {
      var n := |clause| - 1;
      assert clause[..n][..j] == clause[..j];
      SumGrows(clause[..n], j, base, signed, total);
      PlusGrows(ClauseSum(clause[..n], base, signed, total), clause[n]);
    }
  }

  // ---------- the exact rational meaning ----------

  /** The exact sum of the weights at signed positions, as a real number. */
  ghost function ExactSum(clause: seq<Weight>, base: nat, signed: set<nat>, total: nat): real
    requires forall k :: 0 <= k < |clause| ==> clause[k].den > 0
  {
    if clause == [] then 0.0
    else
      var n := |clause| - 1;
      ExactSum(clause[..n], base, signed, total)
      + if Counts(base + n, signed, total) then clause[n].num as real / clause[n].den as real else 0.0
  }

  lemma AddFractions(a: real, b: real, n: real, d: real)
    requires b > 0.0 && d > 0.0
    ensures b * d > 0.0
    ensures (a * d + n * b) / (b * d) == a / b + n / d
  {
    assert (a * d) / (b * d) == a / b;
    assert (n * b) / (b * d) == n / d;
  }

  lemma {:induction false} SumIsExact(clause: seq<Weight>, base: nat, signed: set<nat>, total: nat)
    requires forall k :: 0 <= k < |clause| ==> clause[k].den > 0
    ensures ClauseSum(clause, base, signed, total).den > 0
    ensures var f := ClauseSum(clause, base, signed, total);
      f.num as real / f.den as real == ExactSum(clause, base, signed, total)
  {
    if clause != [] {
      var n := |clause| - 1;
      SumIsExact(clause[..n], base, signed, total);
      if Counts(base + n, signed, total) {
        var f, w := ClauseSum(clause[..n], base, signed, total), clause[n];
        Positive(f.den, w.den);
        AddFractions(f.num as real, f.den as real, w.num as real, w.den as real);
      }
    }
  }

  lemma AtLeastOne(a: nat, b: nat)
    requires b > 0
    ensures a as real / b as real >= 1.0 <==> a >= b
  {
    var q := a as real / b as real;
    assert q * b as real == a as real;
  }

  /** The product of the denominators at signed positions. */
  ghost function DenAt(clause: seq<Weight>, base: nat, signed: set<nat>, total: nat): nat {
    if clause == [] then 1
    else
      var n := |clause| - 1;
      DenAt(clause[..n], base, signed, total) * if Counts(base + n, signed, total) then clause[n].den else 1
  }

  /** The running denominator is never reduced. */
  lemma {:induction false} DenIsProduct(clause: seq<Weight>, base: nat, signed: set<nat>, total: nat)
    ensures ClauseSum(clause, base, signed, total).den == DenAt(clause, base, signed, total)
  {
    if clause != [] {
      DenIsProduct(clause[..|clause| - 1], base, signed, total);
    }
  }

  // ---------- the flat list of weights ----------

  /** All weights in order; the k-th belongs to the k-th key. */
  function Flat(clauses: seq<seq<Weight>>): seq<Weight> {
    if clauses == [] then [] else clauses[0] + Flat(clauses[1..])
  }

  /** The key position of the first weight of clause `c`: how many weights the clauses before it have. */
  function StartOf(clauses: seq<seq<Weight>>, c: nat): nat
    requires c <= |clauses|
  {
    |Flat(clauses[..c])|
  }

  lemma {:induction false} FlatAppend(a: seq<seq<Weight>>, b: seq<seq<Weight>>)
    ensures Flat(a + b) == Flat(a) + Flat(b)
  {
    if a == [] {
      assert a + b == b;
    } else {
      assert (a + b)[1..] == a[1..] + b;
      FlatAppend(a[1..], b);
    }
  }

  /** The running key position is that of the flat list, and clause `c` is its slice of it. */
  lemma {:induction false} BaseIsFlat(clauses: seq<seq<Weight>>, c: nat)
    requires c <= |clauses|
    ensures Base(clauses, c) == StartOf(clauses, c)
    ensures c < |clauses| ==>
      var from, until := StartOf(clauses, c), StartOf(clauses, c + 1);
      until == from + |clauses[c]| <= |Flat(clauses)| && Flat(clauses)[from..until] == clauses[c]
  {
    if c > 0 {
      BaseIsFlat(clauses, c - 1);
    }
    if c < |clauses| {
      var before, here, after := clauses[..c], clauses[c], clauses[c + 1..];
      assert clauses[..c + 1] == before + [here] && clauses == (before + [here]) + after;
      OneClause(here);
      FlatAppend(before, [here]);
      FlatAppend(before + [here], after);
    }
  }

  lemma OneClause(clause: seq<Weight>)
    ensures Flat([clause]) == clause
  {
    assert [clause][1..] == [];
  }

  /** The exact sum of the weights at signed key positions from `from` up to `to`. */
  ghost function FlatSum(flat: seq<Weight>, from: nat, until: nat, signed: set<nat>, total: nat): real
    requires from <= until <= |flat| && forall k :: 0 <= k < |flat| ==> flat[k].den > 0
    decreases until
  {
    if until == from then 0.0
    else
      var w := flat[until - 1];
      FlatSum(flat, from, until - 1, signed, total)
      + if Counts(until - 1, signed, total) then w.num as real / w.den as real else 0.0
  }

  /** The product of their denominators. */
  ghost function FlatDen(flat: seq<Weight>, from: nat, until: nat, signed: set<nat>, total: nat): nat
    requires from <= until <= |flat|
    decreases until
  {
    if until == from then 1
    else
      FlatDen(flat, from, until - 1, signed, total)
      * if Counts(until - 1, signed, total) then flat[until - 1].den else 1
  }

  /** Sums over a clause are sums over its slice of the flat list. */
  lemma {:induction false} SliceSums(flat: seq<Weight>, from: nat, until: nat, signed: set<nat>, total: nat)
    requires from <= until <= |flat| && forall k :: 0 <= k < |flat| ==> flat[k].den > 0
    ensures forall k :: 0 <= k < until - from ==> flat[from..until][k].den > 0
    ensures ExactSum(flat[from..until], from, signed, total) == FlatSum(flat, from, until, signed, total)
    ensures DenAt(flat[from..until], from, signed, total) == FlatDen(flat, from, until, signed, total)
    decreases until
  {
    if from < until {
      SliceSums(flat, from, until - 1, signed, total);
      var clause := flat[from..until];
      assert clause[..|clause| - 1] == flat[from..until - 1] && clause[|clause| - 1] == flat[until - 1];
    }
  }

  lemma {:induction false} FlatValid(clauses: seq<seq<Weight>>)
    requires Weighted(clauses).Valid()
    ensures forall k :: 0 <= k < |Flat(clauses)| ==> Flat(clauses)[k].den > 0
  {
    if clauses != [] {
      var more := clauses[1..];
      assert forall c :: 0 <= c < |more| ==> more[c] == clauses[c + 1];
      FlatValid(more);
      assert forall j :: 0 <= j < |clauses[0]| ==> clauses[0][j].Valid();
    }
  }

  /** The exact sum of clause `c`'s weights at signed key positions. */
  ghost function SignedWeight(clauses: seq<seq<Weight>>, c: nat, signed: set<nat>, total: nat): real
    requires Weighted(clauses).Valid() && c < |clauses|
  {
    FlatValid(clauses);
    BaseIsFlat(clauses, c);
    FlatSum(Flat(clauses), StartOf(clauses, c), StartOf(clauses, c + 1), signed, total)
  }

  /** The sum of clause `c` reaches one. */
  ghost predicate ReachesOne(clauses: seq<seq<Weight>>, c: nat, signed: set<nat>, total: nat)
    requires Weighted(clauses).Valid() && c < |clauses|
  {
    SignedWeight(clauses, c, signed, total) >= 1.0
  }

  /** Over the product of the signed denominators, unreduced, its numerator fits in 64 bits. */
  ghost predicate Fits(clauses: seq<seq<Weight>>, c: nat, signed: set<nat>, total: nat)
    requires Weighted(clauses).Valid() && c < |clauses|
  {
    BaseIsFlat(clauses, c);
    SignedWeight(clauses, c, signed, total)
      * FlatDen(Flat(clauses), StartOf(clauses, c), StartOf(clauses, c + 1), signed, total) as real < U64 as real
  }

  /** What the running fraction of clause `c` amounts to. */
  lemma ClauseFraction(clauses: seq<seq<Weight>>, c: nat, signed: set<nat>, total: nat)
    requires Weighted(clauses).Valid() && c < |clauses|
    ensures var f := ClauseSum(clauses[c], Base(clauses, c), signed, total);
      f.den > 0 && (f.num >= f.den <==> ReachesOne(clauses, c, signed, total))
      && (f.num < U64 <==> Fits(clauses, c, signed, total))
  {
    hide ClauseSum, Base, StartOf, ExactSum, DenAt, FlatSum, FlatDen, Flat;
    var flat, from, until := Flat(clauses), StartOf(clauses, c), StartOf(clauses, c + 1);
    FlatValid(clauses);
    BaseIsFlat(clauses, c);
    assert flat[from..until] == clauses[c];
    SliceSums(flat, from, until, signed, total);
    SumIsExact(clauses[c], from, signed, total);
    DenIsProduct(clauses[c], from, signed, total);
    var f := ClauseSum(clauses[c], from, signed, total);
    Numerator(f.num, f.den, SignedWeight(clauses, c, signed, total));
  }

  lemma Numerator(n: nat, d: nat, q: real)
    requires d > 0 && n as real / d as real == q
    ensures (n >= d <==> q >= 1.0) && (n < U64 <==> q * d as real < U64 as real)
  {
    AtLeastOne(n, d);
    assert q * d as real == n as real;
  }

  lemma ClauseExact(clauses: seq<seq<Weight>>, c: nat, signed: set<nat>, total: nat)
    requires Weighted(clauses).Valid() && c < |clauses|
    ensures ClauseMet(clauses, c, signed, total) <==>
      ReachesOne(clauses, c, signed, total) && Fits(clauses, c, signed, total)
  {
    ClauseFraction(clauses, c, signed, total);
    hide ReachesOne, Fits, ClauseSum, Base;
  }

  /**
   * A weighted threshold is met exactly when in every clause the exact sum of the weights at signed
   * key positions, counted along the flat list of all weights, reaches one, and its numerator over
   * the product of the signed denominators still fits in 64 bits.
   */
  lemma WeightedExact(clauses: seq<seq<Weight>>, signed: set<nat>, total: nat)
    requires Weighted(clauses).Valid()
    ensures Satisfied(Weighted(clauses), signed, total) <==>
      clauses != [] &&
      forall c :: 0 <= c < |clauses| ==> ReachesOne(clauses, c, signed, total) && Fits(clauses, c, signed, total)
  {
    forall c | 0 <= c < |clauses|
      ensures ClauseMet(clauses, c, signed, total) <==>
        ReachesOne(clauses, c, signed, total) && Fits(clauses, c, signed, total)
    {
      ClauseExact(clauses, c, signed, total);
    }
  }

  function DenProduct(clause: seq<Weight>): nat {
    if clause == [] then 1 else DenProduct(clause[..|clause| - 1]) * clause[|clause| - 1].den
  }

  function NumSum(clause: seq<Weight>): nat {
    if clause == [] then 0 else NumSum(clause[..|clause| - 1]) + clause[|clause| - 1].num
  }

  lemma ProductBound(n: nat, d: nat, p: nat, s: nat, w: Weight)
    requires n <= p * s && 0 < d <= p && w.den > 0
    ensures n * w.den + w.num * d <= (p * w.den) * (s + w.num)
    ensures d * w.den <= p * w.den
    ensures n <= (p * w.den) * (s + w.num) && d <= p * w.den
  {
    var q, m := w.den, w.num;
    MulMono(n, p * s, q);
    MulMono(d, p, m);
    MulMono(d, p, q);
    assert (p * q) * (s + m) == (p * s) * q + (p * m) * q;
    MulMono(1, q, p * m);
    MulMono(1, q, p * s);
    MulMono(1, q, p);
  }

  lemma MulMono(a: nat, b: nat, k: nat)
    requires a <= b
    ensures a * k <= b * k
  {
  }

  lemma {:induction false} SumBound(clause: seq<Weight>, base: nat, signed: set<nat>, total: nat)
    requires forall k :: 0 <= k < |clause| ==> clause[k].den > 0
    ensures var f := ClauseSum(clause, base, signed, total);
      0 < f.den <= DenProduct(clause) && f.num <= DenProduct(clause) * NumSum(clause)
  {
    if clause != [] {
      var n := |clause| - 1;
      SumBound(clause[..n], base, signed, total);
      var f := ClauseSum(clause[..n], base, signed, total);
      ProductBound(f.num, f.den, DenProduct(clause[..n]), NumSum(clause[..n]), clause[n]);
      Positive(f.den, clause[n].den);
    }
  }

  predicate Small(clause: seq<Weight>) {
    DenProduct(clause) * (1 + NumSum(clause)) < U64
  }

  lemma SmallClauseFits(clauses: seq<seq<Weight>>, c: nat, signed: set<nat>, total: nat)
    requires Weighted(clauses).Valid() && c < |clauses| && Small(clauses[c])
    ensures Fits(clauses, c, signed, total)
  {
    hide ClauseSum, DenProduct, NumSum, Base, ReachesOne, Fits;
    SumBound(clauses[c], Base(clauses, c), signed, total);
    OneMore(DenProduct(clauses[c]), NumSum(clauses[c]));
    ClauseFraction(clauses, c, signed, total);
  }

  lemma OneMore(p: nat, s: nat)
    ensures p * (1 + s) == p + p * s
    ensures p * s >= 0
  {
  }

  /** Small enough weights cannot overflow, so for them the threshold decides the rational question exactly. */
  lemma WeightedExactWhenSmall(clauses: seq<seq<Weight>>, signed: set<nat>, total: nat)
    requires Weighted(clauses).Valid()
    requires forall c :: 0 <= c < |clauses| ==> Small(clauses[c])
    ensures Satisfied(Weighted(clauses), signed, total) <==>
      clauses != [] && forall c :: 0 <= c < |clauses| ==> ReachesOne(clauses, c, signed, total)
  {
    WeightedExact(clauses, signed, total);
    forall c | 0 <= c < |clauses|
      ensures Fits(clauses, c, signed, total)
    {
      SmallClauseFits(clauses, c, signed, total);
    }
  }

  /** A met threshold always rests on at least one signed, in-range key. */
  lemma SatisfiedNeedsASignature(t: Threshold, signed: set<nat>, total: nat)
    requires t.Valid() && Satisfied(t, signed, total)
    ensures signed != {}
  {
    if signed == {} && t.Weighted? {
      assert ClauseMet(t.clauses, 0, signed, total);
      NoSignatures(t.clauses[0], 0, total);
    }
  }

  /** A met weighted threshold rests on a signature in every clause, by a key of that clause's own. */
  lemma EveryClauseSigned(clauses: seq<seq<Weight>>, signed: set<nat>, total: nat, c: nat) returns (j: nat)
    requires Weighted(clauses).Valid() && Satisfied(Weighted(clauses), signed, total) && c < |clauses|
    ensures j < |clauses[c]| && |Flat(clauses[..c])| + j in signed && |Flat(clauses[..c])| + j < total
  {
    WeightedExact(clauses, signed, total);
    hide Satisfied, Fits, ClauseMet, Flat;
    assert ReachesOne(clauses, c, signed, total);
    BaseIsFlat(clauses, c);
    FlatValid(clauses);
    var k := SomeSigned(Flat(clauses), StartOf(clauses, c), StartOf(clauses, c + 1), signed, total);
    j := k - StartOf(clauses, c);
  }

  lemma {:induction false} SomeSigned(flat: seq<Weight>, from: nat, until: nat, signed: set<nat>, total: nat)
    returns (k: nat)
    requires from <= until <= |flat| && forall k :: 0 <= k < |flat| ==> flat[k].den > 0
    requires FlatSum(flat, from, until, signed, total) > 0.0
    ensures from <= k < until && Counts(k, signed, total)
    decreases until
  {
    k := until - 1;
    if !Counts(k, signed, total) {
      k := SomeSigned(flat, from, until - 1, signed, total);
    }
  }

  lemma {:induction false} NoSignatures(clause: seq<Weight>, base: nat, total: nat)
    ensures ClauseSum(clause, base, {}, total) == Fraction(0, 1)
  {
    if clause != [] {
      NoSignatures(clause[..|clause| - 1], base, total);
    }
  }

  lemma SumAppend(clause: seq<Weight>, w: Weight, base: nat, signed: set<nat>, total: nat)
    ensures ClauseSum(clause + [w], base, signed, total) ==
      if Counts(base + |clause|, signed, total) then Plus(ClauseSum(clause, base, signed, total), w)
      else ClauseSum(clause, base, signed, total)
  {
    hide Plus, Counts, ClauseSum;
    var longer := clause + [w];
    assert longer[..|longer| - 1] == clause;
    LastWeight(longer, base, signed, total);
  }

  lemma LastWeight(clause: seq<Weight>, base: nat, signed: set<nat>, total: nat)
    requires clause != []
    ensures var n := |clause| - 1;
      ClauseSum(clause, base, signed, total) ==
        if Counts(base + n, signed, total) then Plus(ClauseSum(clause[..n], base, signed, total), clause[n])
        else ClauseSum(clause[..n], base, signed, total)
  {
    hide Plus, Counts;
  }

  const TINY := Weight(1, 0x8000_0000)

  lemma TinyStep(clause: seq<Weight>, signed: set<nat>, d: nat)
    requires ClauseSum(clause, 0, signed, 4).den >= d
    ensures |clause| in signed && |clause| < 4 ==> ClauseSum(clause + [TINY], 0, signed, 4).den >= d * 0x8000_0000
    ensures |clause| !in signed ==> ClauseSum(clause + [TINY], 0, signed, 4) == ClauseSum(clause, 0, signed, 4)
  {
    SumAppend(clause, TINY, 0, signed, 4);
    MulMono(d, ClauseSum(clause, 0, signed, 4).den, 0x8000_0000);
  }

  /** Signatures are not monotone: three more tiny weights overflow the running denominator of a met clause. */
  lemma MoreSignaturesCanFail()
    ensures var t := Weighted([[Weight(1, 1)] + [TINY] + [TINY] + [TINY]]);
      t.Valid() && Satisfied(t, {0}, 4) && !Satisfied(t, {0, 1, 2, 3}, 4)
  {
    hide ClauseSum;
    var one := [Weight(1, 1)];
    var clauses := [one + [TINY] + [TINY] + [TINY]];
    OneSigned({0});
    TinyStep(one, {0}, 1);
    TinyStep(one + [TINY], {0}, 1);
    TinyStep(one + [TINY] + [TINY], {0}, 1);
    assert ClauseMet(clauses, 0, {0}, 4);
    var all := {0, 1, 2, 3};
    OneSigned(all);
    TinyStep(one, all, 1);
    TinyStep(one + [TINY], all, 0x8000_0000);
    TinyStep(one + [TINY] + [TINY], all, 0x4000_0000_0000_0000);
    assert !ClauseMet(clauses, 0, all, 4);
  }

  /** More signatures never lower a sum. */
  lemma {:induction false} FlatMonotone(flat: seq<Weight>, from: nat, until: nat, s: set<nat>, s2: set<nat>, total: nat)
    requires from <= until <= |flat| && (forall k :: 0 <= k < |flat| ==> flat[k].den > 0) && s <= s2
    ensures FlatSum(flat, from, until, s, total) <= FlatSum(flat, from, until, s2, total)
    decreases until
  {
    if from < until {
      FlatMonotone(flat, from, until - 1, s, s2, total);
      NotNegative(flat[until - 1]);
    }
  }

  lemma NotNegative(w: Weight)
    requires w.den > 0
    ensures w.num as real / w.den as real >= 0.0
  {
  }

  /**
   * Exactly when adding signatures keeps a met threshold met: always for a count, and for weights
   * when no clause's sum over the larger set overflows.
   */
  lemma MoreSignaturesExactly(t: Threshold, s: set<nat>, s2: set<nat>, total: nat)
    requires t.Valid() && Satisfied(t, s, total) && s <= s2
    ensures Satisfied(t, s2, total) <==>
      (t.Weighted? ==> forall c :: 0 <= c < |t.clauses| ==> Fits(t.clauses, c, s2, total))
  {
    match t
    case Simple(_) => SubsetSize(s, s2);
    case Weighted(clauses) =>
      WeightedExact(clauses, s, total);
      WeightedExact(clauses, s2, total);
      hide ClauseSum, ClauseMet, Satisfied, Fits;
      forall c | 0 <= c < |clauses| ensures ReachesOne(clauses, c, s2, total) {
        assert ReachesOne(clauses, c, s, total);
        BaseIsFlat(clauses, c);
        FlatValid(clauses);
        FlatMonotone(Flat(clauses), StartOf(clauses, c), StartOf(clauses, c + 1), s, s2, total);
      }
  }

  lemma OneSigned(signed: set<nat>)
    requires 0 in signed
    ensures ClauseSum([Weight(1, 1)], 0, signed, 4) == Fraction(1, 1)
  {
    SumAppend([], Weight(1, 1), 0, signed, 4);
    assert [] + [Weight(1, 1)] == [Weight(1, 1)];
  }

  // ---------- text forms ----------

  /** `str::split_once('/')`. */
  function SlashAt(s: string): (i: nat)
    ensures i <= |s|
    ensures i < |s| ==> s[i] == '/'
    ensures forall k :: 0 <= k < i ==> s[k] != '/'
  {
    if s == "" || s[0] == '/' then 0 else 1 + SlashAt(s[1..])
  }

  function NewWeight(num: nat, den: nat): Result<Weight> {
    if den == 0 then Err(Validation) else Ok(Weight(num, den))
  }

  function ParseWeight(s: string): Result<Weight> {
    var i := SlashAt(s);
    if i < |s| then
      var num :- OkOr(Parse(s[..i], 10, U32), Validation);
      var den :- OkOr(Parse(s[i + 1..], 10, U32), Validation);
      NewWeight(num, den)
    else
      var num :- OkOr(Parse(s, 10, U32), Validation);
      NewWeight(num, 1)
  }

  function FractionString(w: Weight): string {
    if w.den == 1 then Format(w.num, 10) else Format(w.num, 10) + "/" + Format(w.den, 10)
  }

  function WeightsFromJson(items: seq<Json>): Result<seq<Weight>> {
    if items == [] then Ok([])
    else
      var s :- OkOr(StrOf(items[0]), Validation);
      var w :- ParseWeight(s);
      var rest :- WeightsFromJson(items[1..]);
      Ok([w] + rest)
  }

  function ClausesFromJson(items: seq<Json>): Result<seq<seq<Weight>>> {
    if items == [] then Ok([])
    else if !items[0].Arr? || items[0].items == [] then Err(Validation)
    else
      var clause :- WeightsFromJson(items[0].items);
      var rest :- ClausesFromJson(items[1..]);
      Ok([clause] + rest)
  }

  function AtLeastOneKey(n: nat): Result<Threshold> {
    if n == 0 then Err(Validation) else Ok(Simple(n))
  }

  function FromJson(v: Json): Result<Threshold> {
    match v
    case Str(s) =>
      var n :- OkOr(Parse(s, 10, U64), Validation);
      AtLeastOneKey(n)
    case Number(l) =>
      var n :- OkOr(Value(l, 10), Validation);
      if n < U64 then AtLeastOneKey(n) else Err(Validation)
    case Arr(items) =>
      if items == [] then Err(Validation)
      else
        var clauses :- ClausesFromJson(items);
        Ok(Weighted(clauses))
    case _ => Err(Validation)
  }

  function WeightsToJson(ws: seq<Weight>): (r: seq<Json>) {
    if ws == [] then [] else [Str(FractionString(ws[0]))] + WeightsToJson(ws[1..])
  }

  function ClausesToJson(cs: seq<seq<Weight>>): seq<Json> {
    if cs == [] then [] else [Arr(WeightsToJson(cs[0]))] + ClausesToJson(cs[1..])
  }

  function ToJson(t: Threshold): Json {
    match t
    case Simple(n) => Str(Format(n, 10))
    case Weighted(clauses) => Arr(ClausesToJson(clauses))
  }

  /** Every threshold that can be parsed: positive counts, and non-empty clauses of valid weights. */
  predicate Expressible(t: Threshold) {
    t.Valid() &&
    match t
    case Simple(n) => 0 < n < U64
    case Weighted(clauses) => clauses != [] && forall c :: 0 <= c < |clauses| ==> clauses[c] != []
  }

  lemma {:induction false} SlashIn(a: string, b: string)
    requires '/' !in a
    ensures SlashAt(a + "/" + b) == |a|
    ensures SlashAt(a) == |a|
  {
    if a != "" {
      assert (a + "/" + b)[1..] == a[1..] + "/" + b;
      SlashIn(a[1..], b);
    }
  }

  lemma DigitsHaveNoSlash(n: nat)
    ensures '/' !in Format(n, 10)
  {
    FormatValue(n, 10);
    assert DigitValue('/', 10).None?;
  }

  lemma WeightRoundTrip(w: Weight)
    requires w.Valid()
    ensures ParseWeight(FractionString(w)) == Ok(w)
  {
    var a, b := Format(w.num, 10), Format(w.den, 10);
    ParseFormat(w.num, 10, 0, U32);
    ParseFormat(w.den, 10, 0, U32);
    DigitsHaveNoSlash(w.num);
    SlashIn(a, b);
    assert (a + "/" + b)[..|a|] == a && (a + "/" + b)[|a| + 1..] == b;
  }

  lemma {:induction false} WeightsRoundTrip(ws: seq<Weight>)
    requires forall j :: 0 <= j < |ws| ==> ws[j].Valid()
    ensures WeightsFromJson(WeightsToJson(ws)) == Ok(ws)
    ensures ws != [] ==> WeightsToJson(ws) != []
  {
    if ws != [] {
      WeightRoundTrip(ws[0]);
      WeightsRoundTrip(ws[1..]);
      assert WeightsToJson(ws)[1..] == WeightsToJson(ws[1..]);
      assert ws == [ws[0]] + ws[1..];
    }
  }

  predicate Clauses(cs: seq<seq<Weight>>) {
    forall c :: 0 <= c < |cs| ==> cs[c] != [] && forall j :: 0 <= j < |cs[c]| ==> cs[c][j].Valid()
  }

  lemma {:induction false} ClausesRoundTrip(cs: seq<seq<Weight>>)
    requires Clauses(cs)
    ensures ClausesFromJson(ClausesToJson(cs)) == Ok(cs)
  {
    hide WeightsFromJson, WeightsToJson;
    if cs != [] {
      WeightsRoundTrip(cs[0]);
      assert Clauses(cs[1..]);
      hide Clauses;
      ClausesRoundTrip(cs[1..]);
      assert ClausesToJson(cs)[1..] == ClausesToJson(cs[1..]);
      assert cs == [cs[0]] + cs[1..];
    }
  }

  /** Every threshold that parsing can produce is read back unchanged from its own JSON form. */
  lemma ThresholdRoundTrip(t: Threshold)
    requires Expressible(t)
    ensures FromJson(ToJson(t)) == Ok(t)
  {
    match t
    case Simple(n) => ParseFormat(n, 10, 0, U64);
    case Weighted(clauses) =>
      ClausesRoundTrip(clauses);
      assert ClausesToJson(clauses) != [];
  }

  lemma ParsedWeightValid(s: string)
    ensures ParseWeight(s).Ok? ==> ParseWeight(s).value.Valid()
  {
  }

  lemma {:induction false} ParsedWeightsValid(items: seq<Json>)
    ensures WeightsFromJson(items).Ok? ==>
      |WeightsFromJson(items).value| == |items| &&
      forall j :: 0 <= j < |items| ==> WeightsFromJson(items).value[j].Valid()
  {
    if items != [] && items[0].Str? {
      ParsedWeightValid(items[0].s);
      ParsedWeightsValid(items[1..]);
    }
  }

  lemma {:induction false} ParsedClausesValid(items: seq<Json>)
    ensures ClausesFromJson(items).Ok? ==>
      Weighted(ClausesFromJson(items).value).Valid() && |ClausesFromJson(items).value| == |items| &&
      forall c :: 0 <= c < |items| ==> ClausesFromJson(items).value[c] != []
  {
    if items != [] && items[0].Arr? && items[0].items != [] {
      ParsedWeightsValid(items[0].items);
      ParsedClausesValid(items[1..]);
    }
  }

  /** Parsing only ever yields expressible thresholds, so zero denominators never reach the sum. */
  lemma ParsedThresholdValid(v: Json)
    ensures FromJson(v).Ok? ==> Expressible(FromJson(v).value)
  {
    if v.Arr? {
      ParsedClausesValid(v.items);
    }
  }
}
