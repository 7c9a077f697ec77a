/** Checking that a delegator's verified log anchors a delegated event. */
module Delegations {
  import opened Wrappers
  import opened Numerals
  import opened JsonValues
  import opened Primitives

  /** Which event of the delegator is claimed to do the anchoring. */
  datatype Proof = Proof(sn: nat, said: string)

  datatype Seal = Seal(prefix: string, sn: string, digest: string)

  /** The anchors of a delegator's event at (prefix, sn, SAID), if that event is verified. */
  type AnchorSource = (string, nat, string) -> Result<Option<seq<Json>>>

  // ---------- the seal source couple ----------

  function BigEndian(s: string): nat {
    if s == "" then 0 else BigEndian(s[..|s| - 1]) * 256 + s[|s| - 1] as int
  }

  predicate Bytes(s: string) {
    forall ch :: ch in s ==> ch as int < 256
  }

  function CoupleProof(c: Suite, snQb64: string, saidQb64: string): Result<Proof> {
    var raw :- OkOr(c.matterRaw(snQb64), ParseError);
    if BigEndian(raw) >= U64 then Err(ParseError)
    else
      var _ :- OkOr(c.matterRaw(saidQb64), ParseError);
      Ok(Proof(BigEndian(raw), saidQb64))
  }

  /** `from_seal_source_couple`: only the low eight bytes are read, so the high ones must be zero. */
  method FromSealSourceCouple(c: Suite, snQb64: string, saidQb64: string) returns (r: Result<Proof>)
    requires c.matterRaw(snQb64).Some? ==> Bytes(c.matterRaw(snQb64).value)
    ensures r == CoupleProof(c, snQb64, saidQb64)
  {
    var matter := c.matterRaw(snQb64);
    if matter.None? {
      return Err(ParseError);
    }
    var raw := matter.value;
    var split := if |raw| < 8 then 0 else |raw| - 8;
    var i := 0;
    while i < split
      invariant 0 <= i <= split
      invariant forall k :: 0 <= k < i ==> raw[k] as int == 0
    {
      if raw[i] as int != 0 {
        assert raw[i] in raw;
        HighByteOverflows(raw, i);
        return Err(ParseError);
      }
      i := i + 1;
    }
    LowFits(raw, split);
    var sn := ReadLow(raw[split..]);
    if c.matterRaw(saidQb64).None? {
      return Err(ParseError);
    }
    r := Ok(Proof(sn, saidQb64));
  }

  /** The last at most eight bytes, right-aligned in a zeroed eight-byte buffer. */
  method ReadLow(low: string) returns (n: nat)
    requires |low| <= 8
    ensures n == BigEndian(low)
  {
    var pad := 8 - |low|;
    var buf := new char[8](_ => 0 as char);
    var j := 0;
    while j < |low|
      invariant 0 <= j <= |low|
      invariant forall k :: 0 <= k < pad ==> buf[k] as int == 0
      invariant forall k :: 0 <= k < j ==> buf[pad + k] == low[k]
    {
      buf[pad + j] := low[j];
      j := j + 1;
    }
    assert buf[pad..] == low;
    assert buf[..] == buf[..pad] + low;
    SkipZeros(buf[..pad], low);
    n := BigEndian(buf[..]);
  }

  lemma {:induction false} SkipZeros(z: string, s: string)
    requires forall k :: 0 <= k < |z| ==> z[k] as int == 0
    ensures BigEndian(z + s) == BigEndian(s)
  {
    if s != "" {
      var t := z + s;
      assert t[..|t| - 1] == z + s[..|s| - 1];
      SkipZeros(z, s[..|s| - 1]);
    } else if z != "" {
      assert z + s == z && z[..|z| - 1] + "" == z[..|z| - 1];
      SkipZeros(z[..|z| - 1], "");
    } else {
      assert z + s == "";
    }
  }

  lemma {:induction false} Below(s: string)
    requires Bytes(s) && |s| <= 8
    ensures BigEndian(s) < Power(256, |s|) <= U64
  {
    if s == "" {
      assert Power(256, 0) == 1;
    } else {
      var init := s[..|s| - 1];
      forall ch | ch in init ensures ch in s {}
      assert s[|s| - 1] in s;
      Below(init);
    }
    PowersOf256();
  }

  lemma LowFits(raw: string, split: nat)
    requires Bytes(raw) && split <= |raw| <= split + 8
    requires forall k :: 0 <= k < split ==> raw[k] as int == 0
    ensures BigEndian(raw) == BigEndian(raw[split..]) < U64
  {
    assert raw == raw[..split] + raw[split..];
    SkipZeros(raw[..split], raw[split..]);
    forall ch | ch in raw[split..] ensures ch in raw {}
    Below(raw[split..]);
  }

  lemma PowersOf256()
    ensures forall k :: 0 <= k <= 8 ==> Power(256, k) <= U64
  {
    assert Power(256, 1) == 0x100 && Power(256, 2) == 0x1_0000 && Power(256, 3) == 0x100_0000;
    assert Power(256, 4) == U32 && Power(256, 5) == 0x100 * U32 && Power(256, 6) == 0x1_0000 * U32;
    assert Power(256, 7) == 0x100_0000 * U32 && Power(256, 8) == U64;
  }

  lemma {:induction false} HighByteOverflows(s: string, i: nat)
    requires i + 8 < |s| && s[i] as int > 0
    ensures BigEndian(s) >= U64
  {
    AtLeast(s, i, |s| - 1 - i);
    assert s[..|s|] == s;
    PowerGrows(8, |s| - 1 - i);
  }

  /** `k` more bytes after a non-zero byte make the number at least `256^k`. */
  lemma {:induction false} AtLeast(s: string, i: nat, k: nat)
    requires i + k < |s| && s[i] as int > 0
    ensures BigEndian(s[..i + 1 + k]) >= Power(256, k)
  {
    var t := s[..i + 1 + k];
    assert t[..|t| - 1] == s[..i + k];
    if k > 0 {
      AtLeast(s, i, k - 1);
      assert t[..|t| - 1] == s[..i + 1 + (k - 1)];
    }
  }

  lemma {:induction false} PowerGrows(a: nat, b: nat)
    requires 8 <= a <= b
    ensures Power(256, b) >= U64
  {
    if a < b {
      PowerGrows(a, b - 1);
    } else if a > 8 {
      PowerGrows(8, b - 1);
    } else {
      PowersOf256();
      assert Power(256, 4) == U32 && Power(256, 8) == U64 by {
        assert Power(256, 1) == 0x100 && Power(256, 2) == 0x1_0000 && Power(256, 3) == 0x100_0000;
        assert Power(256, 5) == 0x100 * U32 && Power(256, 6) == 0x1_0000 * U32;
        assert Power(256, 7) == 0x100_0000 * U32;
      }
    }
  }

  // ---------- the anchor check ----------

  /** A JSON anchor read as an event seal: an object, or a bare triple, as serde accepts both. */
  function SealOf(v: Json): Option<Seal> {
    match v
    case Obj(_) =>
      (match (GetStr(v, "i"), GetStr(v, "s"), GetStr(v, "d"))
       case (Some(i), Some(s), Some(d)) => Some(Seal(i, s, d))
       case _ => None)
    case Arr(items) =>
      if |items| == 3 && items[0].Str? && items[1].Str? && items[2].Str?
      then Some(Seal(items[0].s, items[1].s, items[2].s))
      else None
    case _ => None
  }

  /** Some anchor is a seal for exactly this event, its sequence number in lower-case hex. */
  predicate Seals(anchors: seq<Json>, delegatee: string, sn: nat, said: string) {
    exists v :: v in anchors && SealOf(v) == Some(Seal(delegatee, Format(sn, 16), said))
  }

  /** A seal for this event: an object with these three fields, or the bare triple of their values. */
  predicate EventSeal(v: Json, prefix: string, sn: nat, said: string) {
    || (v.Obj? && Get(v, "i") == Some(Str(prefix)) && Get(v, "s") == Some(Str(Format(sn, 16)))
        && Get(v, "d") == Some(Str(said)))
    || v == Arr([Str(prefix), Str(Format(sn, 16)), Str(said)])
  }

  /** The seal a delegator writes. */
  function WrittenSeal(prefix: string, sn: nat, said: string): Json {
    Obj([Field("i", Str(prefix)), Field("s", Str(Format(sn, 16))), Field("d", Str(said))])
  }

  lemma SealOfExactly(v: Json, prefix: string, sn: nat, said: string)
    ensures SealOf(v) == Some(Seal(prefix, Format(sn, 16), said)) <==> EventSeal(v, prefix, sn, said)
  {
    hide Format;
    if v.Arr? && |v.items| == 3 {
      assert v.items == [v.items[0], v.items[1], v.items[2]];
    }
  }

  lemma WrittenSealReads(prefix: string, sn: nat, said: string)
    ensures EventSeal(WrittenSeal(prefix, sn, said), prefix, sn, said)
  {
    hide Format;
    var fields := WrittenSeal(prefix, sn, said).fields;
    FindAt(fields, "i", 0);
    FindAt(fields, "s", 1);
    FindAt(fields, "d", 2);
  }

  function VerifyDelegation(delegatee: string, sn: nat, said: string, delegator: string,
                            proof: Proof, source: AnchorSource): Result<()>
  {
    if delegator == "" || delegator == delegatee then Err(Validation)
    else
      var found :- source(delegator, proof.sn, proof.said);
      if found.None? then Err(Validation)
      else if !Seals(found.value, delegatee, sn, said) then Err(Validation)
      else Ok(())
  }

  /**
   * A delegation is authorised exactly when its delegator is named and another, the lookup finds the
   * event that is claimed to anchor it, and that event anchors a seal of the three fields.
   */
  lemma DelegationExactly(delegatee: string, sn: nat, said: string, delegator: string,
                          proof: Proof, source: AnchorSource)
    ensures VerifyDelegation(delegatee, sn, said, delegator, proof, source).Ok? <==>
      && delegator != "" && delegator != delegatee
      && source(delegator, proof.sn, proof.said).Ok? && source(delegator, proof.sn, proof.said).value.Some?
      && exists v :: v in source(delegator, proof.sn, proof.said).value.value && EventSeal(v, delegatee, sn, said)
  {
    hide SealOf, EventSeal;
    forall v ensures SealOf(v) == Some(Seal(delegatee, Format(sn, 16), said)) <==> EventSeal(v, delegatee, sn, said) {
      SealOfExactly(v, delegatee, sn, said);
    }
  }
}
