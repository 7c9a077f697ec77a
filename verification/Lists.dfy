/** Facts about lists without repeats and about the finite sets they list. */
module Lists {

  predicate Distinct<T(==)>(s: seq<T>) {
    forall i, j :: 0 <= i < j < |s| ==> s[i] != s[j]
  }

  ghost function Elements<T>(s: seq<T>): set<T> {
    set x | x in s
  }

  lemma {:induction false} DistinctSize<T>(s: seq<T>)
    requires Distinct(s)
    ensures |Elements(s)| == |s|
  {
    if s != [] {
      var init, last := s[..|s| - 1], s[|s| - 1];
      DistinctSize(init);
      assert s == init + [last];
      assert Elements(s) == Elements(init) + {last};
    }
  }

  lemma {:induction false} SubsetSize<T>(a: set<T>, b: set<T>)
    requires a <= b
    ensures |a| <= |b|
    decreases b
  {
    if a != {} {
      var x :| x in a;
      SubsetSize(a - {x}, b - {x});
    }
  }

  /** Two subsets of one finite set overlap in at least as many elements as their sizes force. */
  lemma QuorumOverlap<T>(a: set<T>, b: set<T>, whole: set<T>)
    requires a <= whole && b <= whole
    ensures |a| + |b| <= |whole| + |a * b|
  {
    SubsetSize(a + b, whole);
    assert |a + b| == |a| + |b| - |a * b|;
  }

  lemma ElementsAppend<T>(s: seq<T>, x: T)
    ensures Elements(s + [x]) == Elements(s) + {x}
  {
  }

  /** Appending an element that is not there yet keeps a list free of repeats. */
  lemma DistinctAppend<T>(s: seq<T>, x: T)
    requires Distinct(s) && x !in Elements(s)
    ensures Distinct(s + [x])
  {
  }
}
