/** The laws the theorems rest on hold together in one small instance of every primitive. */
module Consistency {
  import opened Wrappers
  import opened JsonValues
  import opened Versions
  import opened Primitives
  import opened WireValues
  import opened Counters
  import opened Habs
  import opened HabEvents
  import opened Simulation

  /** `n` times the letter A. */
  function Letters(n: nat): (s: string)
    ensures |s| == n && Base64Text(s) && Ascii(s)
    ensures n > 0 ==> s[0] == 'A'
  {
    seq(n, _ => 'A')
  }

  /** The value a text is the rendering of, if any; unique because rendering is injective. */
  ghost function Unprinted(s: string): Option<Json> {
    if exists v :: Print(v) == s then
      var v :| Print(v) == s;
      Some(v)
    else None
  }

  lemma UnprintedPrint(v: Json)
    ensures Unprinted(Print(v)) == Some(v)
  {
    var w := Unprinted(Print(v)).value;
    PrintInjective(v, w);
  }

  const KEY_SPACE := 64 * 64 * 64
  const NAME_SPACE := 64 * 64 * 64 * 64

  /** Keys are told apart by their last three characters. */
  function KeyNumber(q: string): (n: nat)
    ensures n < KEY_SPACE
  {
    match if |q| == 44 then CountValue(q[41..]) else None
    case Some(n) => n % KEY_SPACE
    case None => 0
  }

  function SmallKey(n: nat): (q: string)
    ensures |q| == 44 && q[0] == 'D'
  {
    "D" + (Letters(40) + CountText(n, 3))
  }

  /** What the small digest of a body depends on: its type, whether it lists traits, and its first key. */
  function FeatureOf(v: Json): (n: nat)
    ensures n < NAME_SPACE
  {
    TypeCode(v) + (if ListsTraits(v) then 8 else 0) + 16 * FirstKey(v)
  }

  function TypeCode(v: Json): (n: nat)
    ensures 1 <= n < 8
  {
    match GetStr(v, "t")
    case Some(t) => if t == "icp" then 1 else if t == "rot" then 2 else 3
    case None => 4
  }

  predicate ListsTraits(v: Json) {
    match Get(v, "c")
    case Some(Arr(items)) => items != []
    case _ => false
  }

  function FirstKey(v: Json): (n: nat)
    ensures n < KEY_SPACE
  {
    match Get(v, "k")
    case Some(Arr(items)) => if items != [] && items[0].Str? then KeyNumber(items[0].s) else 0
    case _ => 0
  }

  /** And of any other data: the key it is, if it is one. */
  ghost function Feature(data: string): (n: nat)
    ensures n < NAME_SPACE
  {
    match Unprinted(data)
    case Some(v) => FeatureOf(v)
    case None => 16 * KeyNumber(data)
  }

  function DigestName(n: nat): (s: string)
    ensures |s| == 44 && s[0] == 'E'
  {
    "E" + (Letters(39) + CountText(n, 4))
  }

  /** The one signature of a message by a key that the small suite accepts; it carries the key. */
  ghost function SigRaw(key: string, msg: string): (s: string)
    ensures |s| == 80
  {
    (if |key| == 44 then key else Letters(44)) + (Letters(32) + CountText(Feature(msg), 4))
  }

  ghost function SigQb64(key: string, msg: string, i: nat): (s: string)
    ensures |s| == 88
  {
    [Base64Char(i % 64)] + (Letters(7) + SigRaw(key, msg))
  }

  predicate IsSmallKey(q: string) {
    |q| == 44 && q[0] == 'D' && Base64Text(q)
  }

  predicate IsSmallDigest(q: string) {
    |q| == 44 && q[0] == 'E' && Base64Text(q)
  }

  function SmallIndexer(q: string): Option<Siger> {
    if |q| == 88 && Base64Value(q[0]).Some? then Some(Siger(Base64Value(q[0]).value, q[8..], q)) else None
  }

  ghost function SmallSuite(): Suite {
    Suite(
      (k, m, s) => if s == SigRaw(k, m) then Check.Valid else if |s| == 80 then Invalid else Malformed,
      (_, data) => DigestName(Feature(data)),
      _ => false,
      _ => None,
      q => IsSmallKey(q),
      q => if IsSmallDigest(q) then Some("E") else None,
      s => Unprinted(s),
      (_, _) => None,
      _ => true,
      _ => Some(1),
      _ => Some(44),
      _ => Some(88),
      q => SmallIndexer(q),
      _ => None)
  }

  ghost function SmallKeyring(): Keyring {
    Keyring(
      _ => true,
      (_, _, path, _) => Some(Signer(path, SmallKey(if path == "" then 0 else path[0] as int))),
      (s: Signer, msg, i: nat) => if i < 64 then Some(Siger(i, SigRaw(s.key, msg), SigQb64(s.key, msg, i))) else None)
  }

  // ---------- the laws ----------

  lemma {:induction false} CountIsBase64(n: nat, width: nat)
    ensures Base64Text(CountText(n, width))
  {
    if width > 0 {
      CountIsBase64(n / 64, width - 1);
      CharIsBase64(n % 64);
    }
  }

  lemma CharIsBase64(v: nat)
    requires v < 64
    ensures IsBase64(Base64Char(v)) && Base64Value(Base64Char(v)) == Some(v)
  {
  }

  lemma NameIsDigest(n: nat)
    ensures IsSmallDigest(DigestName(n))
  {
    CountIsBase64(n, 4);
    hide CountText, Letters;
    forall ch | ch in DigestName(n) ensures IsBase64(ch) {
      assert ch == 'E' || ch in Letters(39) || ch in CountText(n, 4);
    }
  }

  /** Different features have different digests. */
  lemma NamesDiffer(m: nat, n: nat)
    requires m < NAME_SPACE && n < NAME_SPACE && DigestName(m) == DigestName(n)
    ensures m == n
  {
    assert Capacity(4) == NAME_SPACE;
    CountRoundTrip(m, 4);
    CountRoundTrip(n, 4);
    hide CountText, Letters, CountValue;
    assert DigestName(m)[40..] == CountText(m, 4) && DigestName(n)[40..] == CountText(n, 4);
  }

  lemma NumberOfKey(n: nat)
    requires n < KEY_SPACE
    ensures KeyNumber(SmallKey(n)) == n
  {
    assert Capacity(3) == KEY_SPACE;
    CountRoundTrip(n, 3);
    hide CountText, Letters, CountValue;
    assert SmallKey(n)[41..] == CountText(n, 3);
  }

  lemma KeyIsText(n: nat)
    ensures IsSmallKey(SmallKey(n))
  {
    CountIsBase64(n, 3);
    hide CountText, Letters;
    forall ch | ch in SmallKey(n) ensures IsBase64(ch) {
      assert ch == 'D' || ch in Letters(40) || ch in CountText(n, 3);
    }
  }

  lemma RawIsBase64(key: string, msg: string)
    requires IsSmallKey(key)
    ensures Base64Text(SigRaw(key, msg))
  {
    CountIsBase64(Feature(msg), 4);
    hide CountText, Letters, Feature;
    forall ch | ch in SigRaw(key, msg) ensures IsBase64(ch) {
      assert ch in key || ch in Letters(32) || ch in CountText(Feature(msg), 4);
    }
  }

  /** No signature of one key is another's. */
  lemma SignaturesDiffer(key: string, other: string, msg: string, text: string)
    requires IsSmallKey(key) && IsSmallKey(other) && SigRaw(key, msg) == SigRaw(other, text)
    ensures key == other
  {
    hide CountText, Letters, Feature;
    assert SigRaw(key, msg)[..44] == key && SigRaw(other, text)[..44] == other;
  }

  lemma SignatureTravels(key: string, msg: string, i: nat)
    requires i < 64 && IsSmallKey(key)
    ensures GoodSignature(SmallSuite(), key, msg, i, Siger(i, SigRaw(key, msg), SigQb64(key, msg, i)))
  {
    hide Base64Char, Base64Value, Letters, SigRaw, Unprinted, CountText, Feature, IsSmallKey, IsSmallDigest, DigestName;
    var q := SigQb64(key, msg, i);
    CharIsBase64(i);
    RawIsBase64(key, msg);
    assert q[8..] == SigRaw(key, msg);
    forall ch | ch in q ensures ch as int < 128 {
      assert ch == Base64Char(i % 64) || ch in Letters(7) || ch in SigRaw(key, msg);
      assert ch in SigRaw(key, msg) ==> IsBase64(ch);
    }
  }

  lemma DecodesOwnPrint()
    ensures DecodeLaw(SmallSuite())
  {
    var c := SmallSuite();
    forall v ensures c.decode(Print(v)) == Some(v) {
      UnprintedPrint(v);
    }
    hide Print, Unprinted, WellFormed;
  }

  lemma SmallDigestLaw()
    ensures DigestLaw(SmallSuite()) && TextLaw(SmallSuite())
  {
    hide Unprinted, Feature, SigRaw, SmallIndexer, IsSmallDigest, DigestName;
    forall data
      ensures |SmallSuite().digest("E", data)| == 44
      ensures SmallSuite().digestCode(SmallSuite().digest("E", data)) == Some("E")
    {
      NameIsDigest(Feature(data));
      NameLength(Feature(data));
    }
    forall q | SmallSuite().digestCode(q).Some? ensures Base64Text(q) {
      DigestIsText(q);
    }
  }

  lemma NameLength(n: nat)
    ensures |DigestName(n)| == 44
  {
  }

  lemma DigestIsText(q: string)
    requires IsSmallDigest(q)
    ensures Base64Text(q)
  {
  }

  lemma SmallKeysAble()
    ensures KeyringLaw(SmallSuite(), SmallKeyring())
  {
    hide Unprinted, Feature, SigRaw, SigQb64, SmallIndexer, GoodSignature, DigestName, IsSmallDigest;
    var c, kr := SmallSuite(), SmallKeyring();
    forall salt, code, path, t | kr.derive(salt, code, path, t).Some?
      ensures Able(c, kr, kr.derive(salt, code, path, t).value)
    {
      var s := kr.derive(salt, code, path, t).value;
      KeyIsText(if path == "" then 0 else path[0] as int);
      forall msg, i | kr.sign(s, msg, i).Some? ensures GoodSignature(c, s.key, msg, i, kr.sign(s, msg, i).value) {
        SignatureTravels(s.key, msg, i);
      }
    }
  }

  /** Ideal primitives exist: digests and signatures that tell messages apart, with keys that sign. */
  lemma IdealPrimitivesExist()
    ensures Ideal(SmallSuite(), SmallKeyring())
  {
    hide SmallSuite, SmallKeyring;
    DecodesOwnPrint();
    SmallDigestLaw();
    SmallKeysAble();
  }
}
