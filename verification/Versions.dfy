/** The 17-byte version string: protocol, version digits, serialization kind, six hex digits of size. */
module Versions {
  import opened Wrappers
  import opened Numerals

  const FULL_SIZE := 17

  datatype Kind = JsonKind | Cbor | MsgPack

  function Tag(k: Kind): (s: string)
    ensures |s| == 4
  {
    match k
    case JsonKind => "JSON"
    case Cbor => "CBOR"
    case MsgPack => "MGPK"
  }

  function FromTag(s: string): Result<Kind> {
    match s
    case "JSON" => Ok(JsonKind)
    case "CBOR" => Ok(Kind.Cbor)
    case "MGPK" => Ok(Kind.MsgPack)
    case _ => Err(InvalidVersion)
  }

  datatype Version = Version(protocol: string, major: nat, minor: nat, kind: Kind, size: nat)

  predicate Ascii(s: string) {
    forall ch :: ch in s ==> ch as int < 128
  }

  /** `Version::parse_str`: only the first 17 bytes matter. */
  function ParseStr(vs: string): Result<Version> {
    if |vs| < FULL_SIZE then Err(InvalidVersion)
    else if !Ascii(vs[..FULL_SIZE]) then Err(InvalidVersion)
    else
      var major :- OkOr(DigitValue(vs[4], 16), InvalidVersion);
      var minor :- OkOr(DigitValue(vs[5], 16), InvalidVersion);
      var kind :- FromTag(vs[6..10]);
      var size :- OkOr(Parse(vs[10..16], 16, U64), InvalidVersion);
      if vs[16] != '_' then Err(InvalidVersion)
      else Ok(Version(vs[0..4], major, minor, kind, size))
  }

  function ToVersionString(v: Version): string {
    v.protocol + Format(v.major, 16) + Format(v.minor, 16) + Tag(v.kind) + Padded(v.size, 16, 6) + "_"
  }

  /** Versions whose rendering is exactly 17 bytes. */
  predicate Standard(v: Version) {
    |v.protocol| == 4 && v.major < 16 && v.minor < 16 && v.size < 0x100_0000
  }

  /** What stands where in a rendered version string. */
  lemma Layout(v: Version)
    requires Standard(v)
    ensures var vs := ToVersionString(v);
      |vs| == FULL_SIZE && vs[0..4] == v.protocol &&
      vs[4] == DigitChar(v.major) && vs[5] == DigitChar(v.minor) &&
      vs[6..10] == Tag(v.kind) && vs[10..16] == Padded(v.size, 16, 6) && vs[16] == '_'
  {
    SixHexDigits(v.size);
    var vs := ToVersionString(v);
    var tail := Tag(v.kind) + Padded(v.size, 16, 6) + "_";
    assert vs == v.protocol + [DigitChar(v.major)] + [DigitChar(v.minor)] + tail;
  }

  lemma VersionAscii(v: Version)
    requires Standard(v) && Ascii(v.protocol)
    ensures Ascii(ToVersionString(v))
  {
    Layout(v);
    SixHexDigits(v.size);
    var vs := ToVersionString(v);
    assert vs == vs[0..4] + [vs[4]] + [vs[5]] + vs[6..10] + vs[10..16] + [vs[16]];
    forall ch | ch in vs ensures ch as int < 128 {}
  }

  /** Parsing undoes rendering, for every protocol name, version digit, kind and six-digit size. */
  lemma VersionRoundTrip(v: Version)
    requires Standard(v) && Ascii(v.protocol)
    ensures ParseStr(ToVersionString(v)) == Ok(v)
  {
    Layout(v);
    SixHexDigits(v.size);
    ParseFormat(v.size, 16, 6, U64);
    var vs := ToVersionString(v);
    VersionAscii(v);
    assert vs[..FULL_SIZE] == vs;
    DigitOfChar(v.major, 16);
    DigitOfChar(v.minor, 16);
  }
}
