/** The CBOR data model (section 3 of RFC 8949) as the verifier sees it, the
    collaborating libraries it calls, and the Java casts it applies to the
    decoded tree. */
module Cbor {
  import opened Wrappers
  import opened Failures

  type byte = b: int | 0 <= b < 256
  type ByteString = seq<byte>

  /** One CBOR data item. A map keeps its entries in the order the decoder
      iterates them. */
  datatype CborValue =
    | Null
    | Bool(b: bool)
    | Int(i: int)
    | Text(s: string)
    | Bytes(bytes: ByteString)
    | Arr(items: seq<CborValue>)
    | MapV(entries: Pairs)
    | Tag(tag: nat, content: CborValue)

  type Pairs = seq<(CborValue, CborValue)>

  /** Tag 24, "Encoded CBOR data item" (section 3.4.5.1 of RFC 8949). */
  const ENCODED_CBOR_DATA_TAG: nat := 24

  /** The value range of java.lang.Integer and java.lang.Long. */
  const INTEGER_MIN: int := -0x8000_0000
  const INTEGER_MAX: int := 0x7fff_ffff
  const LONG_MIN: int := -0x8000_0000_0000_0000
  const LONG_MAX: int := 0x7fff_ffff_ffff_ffff

  predicate IsJavaInteger(i: int) { INTEGER_MIN <= i <= INTEGER_MAX }
  predicate IsJavaLong(i: int) { LONG_MIN <= i <= LONG_MAX }

  predicate HasKey(m: Pairs, k: CborValue) {
    exists i | 0 <= i < |m| :: m[i].0 == k
  }

  /** CBORPairList.findByKey: the value of the first pair whose key is k, or
      None (a null pair) when there is none. */
  function FindByKey(m: Pairs, k: CborValue): (r: Option<CborValue>)
    ensures r.None? <==> !HasKey(m, k)
    ensures r.Some? ==> exists i | 0 <= i < |m| :: m[i] == (k, r.value) && forall j | 0 <= j < i :: m[j].0 != k
  {
    if m == [] then None
    else if m[0].0 == k then Some(m[0].1)
    else
      var r := FindByKey(m[1..], k);
      assert forall i | 1 <= i < |m| :: m[i] == m[1..][i - 1];
      r
  }

  /** java.util.Map.get on a decoded map: the value of the first pair whose
      key is k; an absent key and a key bound to null both give null. */
  function Get(m: Pairs, k: CborValue): CborValue {
    if m == [] then Null
    else if m[0].0 == k then m[0].1
    else Get(m[1..], k)
  }

  /** get and findByKey agree: get is findByKey with a missing pair read as
      null. */
  lemma {:induction false} GetIsFindByKey(m: Pairs, k: CborValue)
    ensures !HasKey(m, k) ==> Get(m, k) == Null
    ensures HasKey(m, k) ==> Some(Get(m, k)) == FindByKey(m, k)
  {
    if m != [] && m[0].0 != k {
      GetIsFindByKey(m[1..], k);
      assert HasKey(m, k) <==> HasKey(m[1..], k) by {
        if HasKey(m, k) {
          var i :| 0 <= i < |m| && m[i].0 == k;
          assert m[1..][i - 1].0 == k;
        }
        if HasKey(m[1..], k) {
          var i :| 0 <= i < |m[1..]| && m[1..][i].0 == k;
          assert m[i + 1].0 == k;
        }
      }
    }
    if m != [] && m[0].0 == k {
      assert HasKey(m, k) by { assert m[0].0 == k; }
    }
  }

  /** A decoded Java map never holds one key twice. */
  predicate DistinctKeys(m: Pairs) {
    forall a, b | 0 <= a < b < |m| :: m[a].0 != m[b].0
  }

  /** In a map without repeated keys, get(key) finds that key's own entry. */
  lemma GetDistinct(m: Pairs, j: nat)
    requires DistinctKeys(m)
    requires j < |m|
    ensures Get(m, m[j].0) == m[j].1
  {
    assert HasKey(m, m[j].0);
    GetIsFindByKey(m, m[j].0);
    var r := FindByKey(m, m[j].0);
    var i :| 0 <= i < |m| && m[i] == (m[j].0, r.value) && forall k | 0 <= k < i :: m[k].0 != m[j].0;
    assert i == j;
  }

  /** The generic Java object the parser produces for an item: tags are
      dropped and the tagged content is kept. */
  function Plain(v: CborValue): CborValue {
    match v
    case Tag(_, content) => Plain(content)
    case Arr(items) => Arr(seq(|items|, i requires 0 <= i < |items| => Plain(items[i])))
    case MapV(entries) =>
      MapV(seq(|entries|, i requires 0 <= i < |entries| => (Plain(entries[i].0), Plain(entries[i].1))))
    case _ => v
  }

  /** The library functions the verifier calls but does not implement. */
  datatype Library = Library(
    /** CBORItem.encode */
    encode: CborValue -> ByteString,
    /** new CBORParser(b).next(): None for a parse error or an empty input */
    decodeNext: ByteString -> Option<CborValue>,
    /** new CBORParser(b).all(): every top-level item */
    decodeAll: ByteString -> Option<seq<CborValue>>,
    /** SHA256.digest (java.security.MessageDigest) */
    sha256: ByteString -> ByteString,
    /** Base64Url.decode (java.util.Base64 URL decoder) */
    base64UrlDecode: string -> Option<ByteString>,
    /** Instant.parse of an ISO-8601 instant, as epoch seconds */
    parseInstant: string -> Option<int>,
    /** CBORizer.cborize: a decoded Java object back as a CBOR item */
    cborize: CborValue -> CborValue)

  /** What the verifier relies on from the codec: parsing what was encoded
      gives back the item's generic view. */
  ghost predicate Lawful(lib: Library) {
    forall v :: lib.decodeNext(lib.encode(v)) == Some(Plain(v))
  }

  /** What the verifier relies on from CBORizer: a generic Java object the
      parser produced turns back into the item it was read from. */
  ghost predicate CborizeInvertsPlain(lib: Library) {
    forall v :: lib.cborize(Plain(v)) == Plain(v)
  }

  /** An encoded CBOR data item wrapped in tag 24, then encoded. */
  function EncodedCborData(lib: Library, item: CborValue): ByteString {
    lib.encode(Tag(ENCODED_CBOR_DATA_TAG, Bytes(lib.encode(item))))
  }

  /** Parsing tag-24 wrapped data takes two parses: the first yields the
      embedded byte string, the second the item itself. */
  lemma DecodeEncodedCborData(lib: Library, item: CborValue)
    requires Lawful(lib)
    ensures lib.decodeNext(EncodedCborData(lib, item)) == Some(Bytes(lib.encode(item)))
    ensures lib.decodeNext(lib.encode(item)) == Some(Plain(item))
  {
    assert lib.decodeNext(lib.encode(Tag(ENCODED_CBOR_DATA_TAG, Bytes(lib.encode(item))))) ==
      Some(Plain(Tag(ENCODED_CBOR_DATA_TAG, Bytes(lib.encode(item)))));
    assert Plain(Bytes(lib.encode(item))) == Bytes(lib.encode(item));
  }

  /** A CBORString or CBORByteArray built around a Java null. */
  function TextOrNull(s: Option<string>): CborValue {
    match s
    case None => Null
    case Some(t) => Text(t)
  }

  function BytesOrNull(b: Option<ByteString>): CborValue {
    match b
    case None => Null
    case Some(x) => Bytes(x)
  }

  /** `new CBORParser(b).next()` whose null or exception aborts the caller. */
  function DecodeNext(lib: Library, b: ByteString): (r: Result<CborValue, Failure>)
    ensures r.Success? <==> lib.decodeNext(b).Some?
    ensures r.Success? ==> Some(r.value) == lib.decodeNext(b)
  {
    match lib.decodeNext(b)
    case None => Failure(Malformed)
    case Some(v) => Success(v)
  }

  /** `(String) o`: null passes as null, a non-string throws. */
  function AsString(v: CborValue): (r: Result<Option<string>, Failure>)
    ensures r.Success? <==> v.Null? || v.Text?
    ensures r.Success? ==> TextOrNull(r.value) == v
  {
    match v
    case Null => Success(None)
    case Text(s) => Success(Some(s))
    case _ => Failure(Malformed)
  }

  /** `(byte[]) o`. */
  function AsByteArray(v: CborValue): (r: Result<Option<ByteString>, Failure>)
    ensures r.Success? <==> v.Null? || v.Bytes?
    ensures r.Success? ==> BytesOrNull(r.value) == v
  {
    match v
    case Null => Success(None)
    case Bytes(b) => Success(Some(b))
    case _ => Failure(Malformed)
  }

  /** `(Integer) o`: the parser yields an Integer only for values that fit. */
  function AsInteger(v: CborValue): (r: Result<Option<int>, Failure>)
    ensures r.Success? <==> v.Null? || (v.Int? && IsJavaInteger(v.i))
    ensures r == Success(None) <==> v.Null?
    ensures r.Success? && r.value.Some? ==> v == Int(r.value.value)
  {
    match v
    case Null => Success(None)
    case Int(i) => if IsJavaInteger(i) then Success(Some(i)) else Failure(Malformed)
    case _ => Failure(Malformed)
  }

  /** A `(Map)` cast whose result is then dereferenced: null fails too. */
  function RequireMap(v: CborValue): (r: Result<Pairs, Failure>)
    ensures r.Success? <==> v.MapV?
    ensures r.Success? ==> v == MapV(r.value)
  {
    match v
    case MapV(m) => Success(m)
    case _ => Failure(Malformed)
  }

  /** A `(List)` cast whose result is then dereferenced. */
  function RequireList(v: CborValue): (r: Result<seq<CborValue>, Failure>)
    ensures r.Success? <==> v.Arr?
    ensures r.Success? ==> v == Arr(r.value)
  {
    match v
    case Arr(items) => Success(items)
    case _ => Failure(Malformed)
  }

  /** A `(byte[])` cast whose result is then parsed. */
  function RequireBytes(v: CborValue): (r: Result<ByteString, Failure>)
    ensures r.Success? <==> v.Bytes?
    ensures r.Success? ==> v == Bytes(r.value)
  {
    match v
    case Bytes(b) => Success(b)
    case _ => Failure(Malformed)
  }
}
