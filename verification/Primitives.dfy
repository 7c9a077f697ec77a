/**
 * The cryptographic and CESR primitives, as a record of uninterpreted functions, and the laws
 * an ideal instance of them obeys. Every theorem names the laws it rests on.
 */
module Primitives {
  import opened Wrappers
  import opened JsonValues
  import opened Versions

  /** `Verfer::verify`: `Ok(true)`, `Ok(false)`, or an error about the key or signature bytes. */
  datatype Check = Valid | Invalid | Malformed

  /** An indexed signature: key index, raw signature bytes, and its qb64 text. */
  datatype Siger = Siger(index: nat, raw: string, qb64: string)

  datatype Suite = Suite(
    /** key qb64, message, raw signature */
    verify: (string, string, string) -> Check,
    /** `Diger::from_data(code, data)`, in qb64 */
    digest: (string, string) -> string,
    /** the codes other than Blake3-256's "E" that it accepts */
    hashes: string -> bool,
    /** full size of a primitive with this code, other than "E"; 0 for one of variable length */
    codeSize: string -> Option<nat>,
    /** `Verfer::from_qb64(..).is_ok()` */
    isKey: string -> bool,
    /** the algorithm code of a text `Diger::from_qb64` accepts */
    digestCode: string -> Option<string>,
    /** deserialization of a message body */
    decode: string -> Option<Json>,
    /** serialization of a message body as CBOR or MessagePack */
    encode: (Kind, Json) -> Option<string>,
    /** the number lexemes that serialization prints */
    isNumber: string -> bool,
    /** CESR code tables: size of the code part, and full size of a primitive or indexed primitive */
    hardage: char -> Option<nat>,
    matterSize: string -> Option<nat>,
    indexerSize: string -> Option<nat>,
    /** `Indexer::from_qb64` and the raw bytes of `Matter::from_qb64` */
    indexer: string -> Option<Siger>,
    matterRaw: string -> Option<string>)

  /** `matter_sizage(code)`, of which only the full size is used. */
  function CodeSize(c: Suite, code: string): Option<nat> {
    if code == "E" then Some(44) else c.codeSize(code)
  }

  function Digest(c: Suite, code: string, data: string): Result<string> {
    if code == "E" || c.hashes(code) then Ok(c.digest(code, data)) else Err(Crypto)
  }

  function SerialError(kind: Kind): Error {
    match kind
    case JsonKind => Error.Json
    case Cbor => Error.Cbor
    case MsgPack => Error.MsgPack
  }

  function Serialize(c: Suite, v: Json, kind: Kind): Result<string> {
    if kind.JsonKind? then Ok(Print(v)) else OkOr(c.encode(kind, v), SerialError(kind))
  }

  /** The placeholder that stands for a digest while the digest is computed. */
  const DUMMY := "############################################"

  predicate IsBase64(ch: char) {
    'A' <= ch <= 'Z' || 'a' <= ch <= 'z' || '0' <= ch <= '9' || ch == '-' || ch == '_'
  }

  predicate Base64Text(s: string) {
    forall ch :: ch in s ==> IsBase64(ch)
  }

  /** Blake3-256 digests are 44 Base64 characters that read back as digests. */
  ghost predicate DigestLaw(c: Suite) {
    forall data :: |c.digest("E", data)| == 44 && c.digestCode(c.digest("E", data)) == Some("E")
  }

  /** Whatever is accepted as a key or a digest is qb64 text. */
  ghost predicate TextLaw(c: Suite) {
    && (forall q :: c.isKey(q) ==> Base64Text(q))
    && (forall q :: c.digestCode(q).Some? ==> Base64Text(q))
  }

  lemma DigestText(c: Suite, data: string)
    requires DigestLaw(c) && TextLaw(c)
    ensures |c.digest("E", data)| == 44 && Base64Text(c.digest("E", data))
    ensures Plain(c.digest("E", data)) && c.digest("E", data) != DUMMY
  {
    var d := c.digest("E", data);
    assert c.digestCode(d).Some?;
    assert d[0] in d;
    assert DUMMY[0] == '#';
  }

  lemma NotDummy(c: Suite, q: string)
    requires TextLaw(c) && (c.isKey(q) || c.digestCode(q).Some?)
    ensures q != DUMMY && '.' !in q
  {
    assert DUMMY[0] in DUMMY && !IsBase64(DUMMY[0]);
  }
}
