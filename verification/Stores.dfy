/** The event store: named tables of string keys, and the keys that index a log by sequence number. */
module Stores {
  import opened Wrappers
  import opened Lists
  import opened Numerals

  // ---------- keys ----------

  /** `{prefix}.{sn:032x}` */
  function SnKey(prefix: string, sn: nat): string {
    prefix + ("." + Padded(sn, 16, 32))
  }

  function Dot(s: string): (i: nat)
    ensures i <= |s| && (i < |s| ==> s[i] == '.') && '.' !in s[..i]
  {
    if s == "" || s[0] == '.' then 0
    else
      var i := Dot(s[1..]);
      assert s[..i + 1] == [s[0]] + s[1..][..i];
      i + 1
  }

  /** The second dot-separated part, read as a hexadecimal sequence number. */
  function SplitSn(key: string): Option<nat> {
    var i := Dot(key);
    if i == |key| then None
    else
      var rest := key[i + 1..];
      Parse(rest[..Dot(rest)], 16, U64)
  }

  /** Different (prefix, sn) pairs never share a key, whatever the prefixes contain. */
  lemma SnKeyInjective(p: string, m: nat, q: string, n: nat)
    requires m < U64 && n < U64 && SnKey(p, m) == SnKey(q, n)
    ensures p == q && m == n
  {
    ThirtyTwoHexDigits(m);
    ThirtyTwoHexDigits(n);
    ParseFormat(m, 16, 32, U64);
    ParseFormat(n, 16, 32, U64);
    var a, b := "." + Padded(m, 16, 32), "." + Padded(n, 16, 32);
    assert |p| == |q|;
    assert p == (p + a)[..|p|] == q;
    assert a == (p + a)[|p|..] == b;
    assert Padded(m, 16, 32) == a[1..] == b[1..] == Padded(n, 16, 32);
  }

  /** Byte order on texts of one length. */
  ghost predicate Lexical(s: string, t: string) {
    exists i :: 0 <= i < |s| && i < |t| && FirstDifference(s, t, i)
  }

  predicate FirstDifference(s: string, t: string, i: nat) {
    i < |s| && i < |t| && s[..i] == t[..i] && s[i] < t[i]
  }

  predicate IsLowerHex(ch: char) {
    '0' <= ch <= '9' || 'a' <= ch <= 'f'
  }

  predicate LowerHex(s: string) {
    forall ch :: ch in s ==> IsLowerHex(ch)
  }

  lemma {:induction false} FormatIsLowerHex(n: nat)
    ensures LowerHex(Format(n, 16))
  {
    if n >= 16 {
      FormatIsLowerHex(High(n, 16));
    }
  }

  lemma LastDigit(s: string)
    requires s != "" && LowerHex(s) && Value(s, 16).Some?
    ensures LowerHex(s[..|s| - 1]) && Value(s[..|s| - 1], 16).Some? && DigitValue(s[|s| - 1], 16).Some?
    ensures Value(s, 16).value == Value(s[..|s| - 1], 16).value * 16 + DigitValue(s[|s| - 1], 16).value
    ensures DigitValue(s[|s| - 1], 16).value < 16
  {
    assert s[|s| - 1] in s;
    forall ch | ch in s[..|s| - 1] ensures IsLowerHex(ch) {
      assert ch in s;
    }
  }

  lemma DigitsOrdered(x: char, y: char)
    requires LowerHex([x]) && LowerHex([y]) && DigitValue(x, 16).Some? && DigitValue(y, 16).Some?
    ensures DigitValue(x, 16).value < DigitValue(y, 16).value <==> x < y
    ensures DigitValue(x, 16).value == DigitValue(y, 16).value <==> x == y
  {
    assert x in [x] && y in [y];
  }

  /** Equally long hexadecimal texts are ordered as their values are. */
  lemma {:induction false} DigitOrder(s: string, t: string)
    requires |s| == |t| && LowerHex(s) && LowerHex(t) && Value(s, 16).Some? && Value(t, 16).Some?
    ensures Value(s, 16).value < Value(t, 16).value ==> Lexical(s, t)
    ensures Value(s, 16).value == Value(t, 16).value ==> s == t
  {
    hide DigitValue, Value;
    if s != "" {
      var n := |s| - 1;
      var a, b := s[..n], t[..n];
      LastDigit(s);
      LastDigit(t);
      DigitOrder(a, b);
      assert s[n] in s && t[n] in t;
      assert LowerHex([s[n]]) && LowerHex([t[n]]);
      DigitsOrdered(s[n], t[n]);
      if Lexical(a, b) {
        var i :| 0 <= i < |a| && i < |b| && FirstDifference(a, b, i);
        assert s[..i] == a[..i] && t[..i] == b[..i];
        assert FirstDifference(s, t, i);
      } else if Value(s, 16).value < Value(t, 16).value {
        assert a == b;
        assert FirstDifference(s, t, n);
      } else if Value(s, 16).value == Value(t, 16).value {
        assert s == a + [s[n]] && t == b + [t[n]];
      }
    } else {
      EmptyValue();
    }
  }

  lemma EmptyValue()
    ensures Value("", 16) == Some(0)
  {
  }

  lemma PaddedHex(n: nat)
    requires n < U64
    ensures LowerHex(Padded(n, 16, 32)) && Value(Padded(n, 16, 32), 16) == Some(n) && |Padded(n, 16, 32)| == 32
  {
    FormatIsLowerHex(n);
    FormatValue(n, 16);
    ThirtyTwoHexDigits(n);
    var s := Format(n, 16);
    if |s| < 32 {
      LeadingZeros(32 - |s|, s, 16);
    }
  }

  /** One identifier's keys are in byte order exactly as their sequence numbers are. */
  lemma SnKeyOrdered(p: string, m: nat, n: nat)
    requires m < n < U64
    ensures Lexical(SnKey(p, m), SnKey(p, n))
  {
    hide Lexical, LowerHex, Value, Padded;
    PaddedHex(m);
    PaddedHex(n);
    var a, b := Padded(m, 16, 32), Padded(n, 16, 32);
    DigitOrder(a, b);
    SameHeadSameOrder(p + ".", a, b);
    KeyParts(p, m);
    KeyParts(p, n);
  }

  lemma KeyParts(p: string, n: nat)
    ensures SnKey(p, n) == (p + ".") + Padded(n, 16, 32)
  {
    hide Padded;
  }

  lemma SameHeadSameOrder(head: string, a: string, b: string)
    requires Lexical(a, b)
    ensures Lexical(head + a, head + b)
  {
    var i :| 0 <= i < |a| && i < |b| && FirstDifference(a, b, i);
    var s, t := head + a, head + b;
    assert s[..|head| + i] == head + a[..i] && t[..|head| + i] == head + b[..i];
    assert FirstDifference(s, t, |head| + i);
  }

  lemma {:induction false} FirstDotAt(s: string, i: nat)
    requires i < |s| && s[i] == '.' && '.' !in s[..i]
    ensures Dot(s) == i
  {
    if i > 0 {
      assert s[0] == s[..i][0];
      assert s[..i] == [s[0]] + s[1..][..i - 1];
      FirstDotAt(s[1..], i - 1);
    }
  }

  lemma NoDot(s: string)
    requires '.' !in s
    ensures Dot(s) == |s|
  {
  }

  /** The sequence number of a dot-free identifier is read back from its key. */
  lemma SplitSnKey(p: string, n: nat)
    requires '.' !in p && n < U64
    ensures SplitSn(SnKey(p, n)) == Some(n)
  {
    ThirtyTwoHexDigits(n);
    ParseFormat(n, 16, 32, U64);
    var key, digits := SnKey(p, n), Padded(n, 16, 32);
    assert key[..|p|] == p && key[|p|] == '.';
    FirstDotAt(key, |p|);
    assert key[|p| + 1..] == digits;
    NoDot(digits);
    assert digits[..|digits|] == digits;
  }

  /** Does this key belong to the log of `prefix`, as `get_kel` decides it? */
  predicate Belongs(key: string, prefix: string) {
    prefix + "." <= key && SplitSn(key).Some?
  }

  lemma OneDot(p: string, q: string, digits: string)
    requires '.' !in q && '.' !in digits && p + "." <= (q + ".") + digits
    ensures p == q
  {
    var key := (q + ".") + digits;
    assert key[|p|] == (p + ".")[|p|] == '.';
    assert |p| == |q|;
    assert p == (p + ".")[..|p|] == key[..|q|] == q;
  }

  /** The keys of a dot-free identifier belong to its own log and to no other. */
  lemma OwnKeysOnly(p: string, q: string, n: nat)
    requires '.' !in q && n < U64
    ensures Belongs(SnKey(q, n), p) <==> p == q
  {
    SplitSnKey(q, n);
    ThirtyTwoHexDigits(n);
    var digits := Padded(n, 16, 32);
    hide SplitSn, Padded;
    assert SnKey(q, n) == (q + ".") + digits;
    if p + "." <= SnKey(q, n) {
      OneDot(p, q, digits);
    }
  }

  // ---------- tables ----------

  datatype Tables = Tables(
    evts: map<string, string>, kels: map<string, string>, fels: map<string, string>,
    sigs: map<string, string>, rcts: map<string, string>, habs: map<string, string>)

  const EMPTY_TABLES := Tables(map[], map[], map[], map[], map[], map[])

  /** The single write transaction of `store_event`. */
  function EventStored(t: Tables, said: string, raw: string, prefix: string, sn: nat, sigs: Option<string>): Tables {
    var key := SnKey(prefix, sn);
    t.(evts := t.evts[said := raw], kels := t.kels[key := said], fels := t.fels[key := said],
       sigs := if sigs.Some? then t.sigs[said := sigs.value] else t.sigs)
  }

  function FirstSeen(t: Tables, prefix: string, sn: nat): Option<string> {
    var key := SnKey(prefix, sn);
    if key in t.fels then Some(t.fels[key]) else None
  }

  predicate SortedBySn(r: seq<(nat, string)>) {
    forall i, j :: 0 <= i < j < |r| ==> r[i].0 <= r[j].0
  }

  ghost predicate ListedAt(kels: map<string, string>, prefix: string, entry: (nat, string), k: string) {
    k in kels && Belongs(k, prefix) && entry == (SplitSn(k).value, kels[k])
  }

  /** `r` lists the entries at the keys `ks`, which are exactly the keys of `prefix`, ordered by sequence number. */
  ghost predicate LogIn(kels: map<string, string>, prefix: string, r: seq<(nat, string)>, ks: seq<string>) {
    && Distinct(ks) && |r| == |ks| && SortedBySn(r)
    && (forall k :: k in kels && Belongs(k, prefix) ==> k in ks)
    && (forall i :: 0 <= i < |ks| ==> ListedAt(kels, prefix, r[i], ks[i]))
  }

  /** `r` lists each entry of `prefix` once, ordered by sequence number. */
  ghost predicate Listing(kels: map<string, string>, prefix: string, r: seq<(nat, string)>) {
    exists ks :: LogIn(kels, prefix, r, ks)
  }

  class LmdbStore {
    var evts: map<string, string>
    var kels: map<string, string>
    var fels: map<string, string>
    var sigs: map<string, string>
    var rcts: map<string, string>
    var habs: map<string, string>

    function Snapshot(): Tables
      reads this
    {
      Tables(evts, kels, fels, sigs, rcts, habs)
    }

    constructor ()
      ensures Snapshot() == EMPTY_TABLES
    {
      evts, kels, fels, sigs, rcts, habs := map[], map[], map[], map[], map[], map[];
    }

    /** One atomic transaction: all of it happens, or none of it and an error. */
    method StoreEvent(said: string, raw: string, prefix: string, sn: nat, signatures: Option<string>, commits: bool)
      returns (r: Result<()>)
      modifies this
      ensures Snapshot() ==
        if commits then EventStored(old(Snapshot()), said, raw, prefix, sn, signatures) else old(Snapshot())
      ensures r == if commits then Ok(()) else Err(Database)
    {
      if !commits {
        return Err(Database);
      }
      var key := SnKey(prefix, sn);
      evts := evts[said := raw];
      kels := kels[key := said];
      fels := fels[key := said];
      if signatures.Some? {
        sigs := sigs[said := signatures.value];
      }
      r := Ok(());
    }

    /** The same transaction with the identifier's record in it. */
    method StoreEventWithHab(said: string, raw: string, prefix: string, sn: nat, signatures: Option<string>,
                             name: string, record: string, commits: bool)
      returns (r: Result<()>)
      modifies this
      ensures Snapshot() ==
        if commits then
          EventStored(old(Snapshot()), said, raw, prefix, sn, signatures).(habs := old(habs)[name := record])
        else old(Snapshot())
      ensures r == if commits then Ok(()) else Err(Database)
    {
      r := StoreEvent(said, raw, prefix, sn, signatures, commits);
      if r.Ok? {
        habs := habs[name := record];
      }
    }

    method PutEvent(said: string, raw: string, commits: bool) returns (r: Result<()>)
      modifies this`evts
      ensures evts == if commits then old(evts)[said := raw] else old(evts)
      ensures r == if commits then Ok(()) else Err(Database)
    {
      if !commits {
        return Err(Database);
      }
      evts := evts[said := raw];
      r := Ok(());
    }

    method PutReceipts(said: string, receipts: string, commits: bool) returns (r: Result<()>)
      modifies this`rcts
      ensures rcts == if commits then old(rcts)[said := receipts] else old(rcts)
      ensures r == if commits then Ok(()) else Err(Database)
    {
      if !commits {
        return Err(Database);
      }
      rcts := rcts[said := receipts];
      r := Ok(());
    }

    /** Scan the table for the keys of `prefix`, kept ordered by sequence number. */
    method GetKel(prefix: string) returns (r: seq<(nat, string)>)
      ensures Listing(kels, prefix, r)
    {
      r := [];
      ghost var ks: seq<string> := [];
      var left := kels.Keys;
      while left != {}
        invariant left <= kels.Keys
        invariant LogIn(map k | k in kels && k !in left :: kels[k], prefix, r, ks)
        decreases left
      {
        var k :| k in left;
        ghost var before := map x | x in kels && x !in left :: kels[x];
        left := left - {k};
        ghost var after := map x | x in kels && x !in left :: kels[x];
        assert after == before[k := kels[k]];
        if Belongs(k, prefix) {
          r, ks := Insert(before, prefix, r, ks, k, kels[k]);
        } else {
          OtherKey(before, prefix, r, ks, k, kels[k]);
        }
      }
      assert (map k | k in kels && k !in left :: kels[k]) == kels;
    }

    method LatestSn(prefix: string) returns (sn: Option<nat>)
      ensures exists r: seq<(nat, string)> ::
        Listing(kels, prefix, r) && sn == if r == [] then None else Some(r[|r| - 1].0)
    {
      var r := GetKel(prefix);
      sn := if r == [] then None else Some(r[|r| - 1].0);
    }
  }

  lemma OtherKey(m: map<string, string>, prefix: string, r: seq<(nat, string)>, ks: seq<string>, k: string, v: string)
    requires LogIn(m, prefix, r, ks) && k !in m && !Belongs(k, prefix)
    ensures LogIn(m[k := v], prefix, r, ks)
  {
    hide Belongs, SplitSn;
    forall i | 0 <= i < |ks| ensures ListedAt(m[k := v], prefix, r[i], ks[i]) {
      assert ListedAt(m, prefix, r[i], ks[i]);
    }
  }

  method Insert(ghost m: map<string, string>, ghost prefix: string, r: seq<(nat, string)>, ghost ks: seq<string>,
                k: string, v: string)
    returns (r2: seq<(nat, string)>, ghost ks2: seq<string>)
    requires LogIn(m, prefix, r, ks) && k !in m && Belongs(k, prefix)
    ensures LogIn(m[k := v], prefix, r2, ks2)
  {
    var sn := SplitSn(k).value;
    hide LogIn, SplitSn, Belongs;
    assert |r| == |ks| by { SameLength(m, prefix, r, ks); }
    var i := |r|;
    while i > 0 && sn < r[i - 1].0
      invariant 0 <= i <= |r|
      invariant i < |r| ==> sn < r[i].0
    {
      i := i - 1;
    }
    r2 := InsertAt(r, i, (sn, v));
    ks2 := InsertAt(ks, i, k);
    InsertKeys(m, prefix, r, ks, k, v, i);
  }

  lemma SameLength(m: map<string, string>, prefix: string, r: seq<(nat, string)>, ks: seq<string>)
    requires LogIn(m, prefix, r, ks)
    ensures |r| == |ks|
  {
  }

  function InsertAt<T>(s: seq<T>, i: nat, x: T): (r: seq<T>)
    requires i <= |s|
    ensures |r| == |s| + 1
    ensures forall j :: 0 <= j < |r| ==> r[j] == if j < i then s[j] else if j == i then x else s[j - 1]
  {
    s[..i] + [x] + s[i..]
  }

  lemma InsertDistinct(ks: seq<string>, i: nat, k: string)
    requires Distinct(ks) && k !in ks && i <= |ks|
    ensures Distinct(InsertAt(ks, i, k))
  {
  }

  lemma InsertMember(ks: seq<string>, i: nat, k: string, x: string)
    requires i <= |ks| && (x == k || x in ks)
    ensures x in InsertAt(ks, i, k)
  {
    var r := InsertAt(ks, i, k);
    if x == k {
      assert r[i] == x;
    } else {
      var j :| 0 <= j < |ks| && ks[j] == x;
      assert r[if j < i then j else j + 1] == x;
    }
  }

  lemma InsertSorted(r: seq<(nat, string)>, i: nat, e: (nat, string))
    requires SortedBySn(r) && i <= |r| && (i > 0 ==> r[i - 1].0 <= e.0) && (i < |r| ==> e.0 <= r[i].0)
    ensures SortedBySn(InsertAt(r, i, e))
  {
  }

  lemma InsertListed(m: map<string, string>, prefix: string, r: seq<(nat, string)>, ks: seq<string>, k: string,
                     v: string, i: nat, j: nat)
    requires LogIn(m, prefix, r, ks) && k !in m && Belongs(k, prefix) && i <= |r| && j <= |r|
    ensures ListedAt(m[k := v], prefix, InsertAt(r, i, (SplitSn(k).value, v))[j], InsertAt(ks, i, k)[j])
  {
    hide SplitSn, SortedBySn, Distinct;
    if j != i {
      var o := if j < i then j else j - 1;
      assert ListedAt(m, prefix, r[o], ks[o]);
    }
  }

  lemma InsertKeys(m: map<string, string>, prefix: string, r: seq<(nat, string)>, ks: seq<string>, k: string, v: string,
                   i: nat)
    requires LogIn(m, prefix, r, ks) && k !in m && Belongs(k, prefix) && i <= |r|
    requires i > 0 ==> r[i - 1].0 <= SplitSn(k).value
    requires i < |r| ==> SplitSn(k).value < r[i].0
    ensures LogIn(m[k := v], prefix, InsertAt(r, i, (SplitSn(k).value, v)), InsertAt(ks, i, k))
  {
    var ks2, e := InsertAt(ks, i, k), (SplitSn(k).value, v);
    hide SplitSn, Belongs, SortedBySn, Distinct;
    forall j | 0 <= j < |ks| ensures ks[j] != k {
      assert ListedAt(m, prefix, r[j], ks[j]);
    }
    InsertDistinct(ks, i, k);
    InsertSorted(r, i, e);
    forall j | 0 <= j < |ks2| ensures ListedAt(m[k := v], prefix, InsertAt(r, i, e)[j], ks2[j]) {
      InsertListed(m, prefix, r, ks, k, v, i, j);
    }
    forall x | x in m[k := v] && Belongs(x, prefix) ensures x in ks2 {
      InsertMember(ks, i, k, x);
    }
  }
}
