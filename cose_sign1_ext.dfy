/** The COSE_Sign1 envelope (section 4.2 of RFC 9052) as the verifier builds it
    from a decoded four-element list. */
module COSESign1Ext {
  import opened Wrappers
  import opened Failures
  import opened Cbor

  const PROTECTED_HEADER_INDEX := 0
  const UNPROTECTED_HEADER_INDEX := 1
  const PAYLOAD_INDEX := 2
  const SIGNATURE_INDEX := 3

  /** Header label of x5chain (section 2 of RFC 9360). */
  const X5CHAIN_LABEL := 33

  /** The protected header keeps the bytes it was decoded from beside the
      decoded parameters. */
  datatype ProtectedHeader = ProtectedHeader(encoded: ByteString, pairs: Pairs)

  datatype UnprotectedHeader = UnprotectedHeader(pairs: Pairs)

  /** An envelope as a value: what is handed to the signature verifier. */
  datatype Sign1 = Sign1(
    protectedHeader: ProtectedHeader,
    unprotectedHeader: UnprotectedHeader,
    payload: CborValue,
    signature: CborValue)

  /** The certificates (DER byte strings) under x5chain: one byte string, or an
      array of byte strings; None when absent or of another shape. */
  function X5Chain(h: UnprotectedHeader): (r: Option<seq<ByteString>>)
    ensures r.Some? ==> Get(h.pairs, Int(X5CHAIN_LABEL)) != Null
    ensures Get(h.pairs, Int(X5CHAIN_LABEL)).Bytes? ==> r == Some([Get(h.pairs, Int(X5CHAIN_LABEL)).bytes])
  {
    match Get(h.pairs, Int(X5CHAIN_LABEL))
    case Bytes(b) => Some([b])
    case Arr(items) =>
      if forall i | 0 <= i < |items| :: items[i].Bytes? then
        Some(seq(|items|, i requires 0 <= i < |items| && items[i].Bytes? => items[i].bytes))
      else None
    case _ => None
  }

  /** `asPairs`: each entry of a decoded map, key and value turned back into
      CBOR items, one pair per entry and in iteration order. */
  function AsPairs(lib: Library, m: Pairs): (r: Pairs)
    ensures |r| == |m|
    ensures forall i | 0 <= i < |r| :: r[i] == (lib.cborize(m[i].0), lib.cborize(m[i].1))
  {
    seq(|m|, i requires 0 <= i < |m| => (lib.cborize(m[i].0), lib.cborize(m[i].1)))
  }

  function GetProtectedHeader(lib: Library, parsed: seq<CborValue>): (r: Result<ProtectedHeader, Failure>)
    requires |parsed| > PROTECTED_HEADER_INDEX
  {
    var encoded :- RequireBytes(parsed[PROTECTED_HEADER_INDEX]);
    var decoded :- DecodeNext(lib, encoded);
    var entries :- RequireMap(decoded);
    Success(ProtectedHeader(encoded, AsPairs(lib, entries)))
  }

  function GetUnprotectedHeader(lib: Library, parsed: seq<CborValue>): (r: Result<UnprotectedHeader, Failure>)
    requires |parsed| > UNPROTECTED_HEADER_INDEX
  {
    var entries :- RequireMap(parsed[UNPROTECTED_HEADER_INDEX]);
    Success(UnprotectedHeader(AsPairs(lib, entries)))
  }

  /** What `from` accepts: a list of at least four elements whose first is a
      byte string that parses to a map, whose second is a map and whose third
      and fourth are byte strings or null. Further elements are never read. */
  predicate IsEnvelope(lib: Library, parsed: CborValue) {
    && parsed.Arr?
    && |parsed.items| > SIGNATURE_INDEX
    && parsed.items[PROTECTED_HEADER_INDEX].Bytes?
    && lib.decodeNext(parsed.items[PROTECTED_HEADER_INDEX].bytes).Some?
    && lib.decodeNext(parsed.items[PROTECTED_HEADER_INDEX].bytes).value.MapV?
    && parsed.items[UNPROTECTED_HEADER_INDEX].MapV?
    && (parsed.items[PAYLOAD_INDEX].Null? || parsed.items[PAYLOAD_INDEX].Bytes?)
    && (parsed.items[SIGNATURE_INDEX].Null? || parsed.items[SIGNATURE_INDEX].Bytes?)
  }

  /** The envelope `from` builds out of a decoded list. */
  function Parse(lib: Library, parsed: CborValue): (r: Result<Sign1, Failure>)
    ensures r.Success? <==> IsEnvelope(lib, parsed)
    ensures r.Success? ==>
      var items := parsed.items;
      && r.value.protectedHeader.encoded == items[PROTECTED_HEADER_INDEX].bytes
      && r.value.protectedHeader.pairs ==
           AsPairs(lib, lib.decodeNext(items[PROTECTED_HEADER_INDEX].bytes).value.entries)
      && r.value.unprotectedHeader.pairs == AsPairs(lib, items[UNPROTECTED_HEADER_INDEX].entries)
      && r.value.payload == items[PAYLOAD_INDEX]
      && r.value.signature == items[SIGNATURE_INDEX]
  {
    var parsed :- RequireList(parsed);
    if |parsed| <= SIGNATURE_INDEX then Failure(Malformed)
    else
      var protectedHeader :- GetProtectedHeader(lib, parsed);
      var unprotectedHeader :- GetUnprotectedHeader(lib, parsed);
      var payload :- AsByteArray(parsed[PAYLOAD_INDEX]);
      var signature :- AsByteArray(parsed[SIGNATURE_INDEX]);
      Success(Sign1(protectedHeader, unprotectedHeader, BytesOrNull(payload), BytesOrNull(signature)))
  }

  /** Only positions 0 to 3 are read: elements after them change nothing. */
  lemma ParseIgnoresTrailingElements(lib: Library, items: seq<CborValue>, extra: seq<CborValue>)
    requires |items| > SIGNATURE_INDEX
    ensures Parse(lib, Arr(items + extra)) == Parse(lib, Arr(items))
  {
    var all := items + extra;
    assert all[..SIGNATURE_INDEX + 1] == items[..SIGNATURE_INDEX + 1];
    assert forall i | 0 <= i <= SIGNATURE_INDEX :: all[i] == items[i];
  }

  /** Under the CBORizer law, the unprotected header of an envelope read from
      a parsed list holds that list's header pairs unchanged, so x5chain is
      the input's own label 33. */
  lemma UnprotectedHeaderOfParsed(lib: Library, parsed: CborValue)
    requires CborizeInvertsPlain(lib)
    requires IsEnvelope(lib, parsed)
    requires Plain(parsed) == parsed
    ensures Parse(lib, parsed).value.unprotectedHeader.pairs == parsed.items[UNPROTECTED_HEADER_INDEX].entries
  {
    var items := parsed.items;
    assert Plain(items[UNPROTECTED_HEADER_INDEX]) == items[UNPROTECTED_HEADER_INDEX] by {
      assert Plain(parsed).items[UNPROTECTED_HEADER_INDEX] == Plain(items[UNPROTECTED_HEADER_INDEX]);
    }
    var m := items[UNPROTECTED_HEADER_INDEX].entries;
    forall i | 0 <= i < |m|
      ensures lib.cborize(m[i].0) == m[i].0 && lib.cborize(m[i].1) == m[i].1
    {
      assert Plain(MapV(m)).entries[i] == (Plain(m[i].0), Plain(m[i].1));
      assert lib.cborize(Plain(m[i].0)) == Plain(m[i].0);
      assert lib.cborize(Plain(m[i].1)) == Plain(m[i].1);
    }
    assert AsPairs(lib, m) == m;
  }

  class COSESign1Ext {
    const protectedHeader: ProtectedHeader
    const unprotectedHeader: UnprotectedHeader
    /** The only field that changes after construction. */
    var payload: CborValue
    const signature: CborValue
    /** The payload the envelope was built with, which `setPayload` leaves
        in place: a proof device that lets a document's values name the
        envelope it was decoded into. */
    ghost const receivedPayload: CborValue

    constructor (protectedHeader: ProtectedHeader, unprotectedHeader: UnprotectedHeader,
                 payload: CborValue, signature: CborValue)
      ensures View() == Sign1(protectedHeader, unprotectedHeader, payload, signature)
      ensures Received() == View()
    {
      this.protectedHeader := protectedHeader;
      this.unprotectedHeader := unprotectedHeader;
      this.payload := payload;
      this.signature := signature;
      this.receivedPayload := payload;
    }

    /** The envelope's current contents. */
    function View(): Sign1
      reads this
    {
      Sign1(protectedHeader, unprotectedHeader, payload, signature)
    }

    /** The envelope as it was built. */
    ghost function Received(): Sign1 {
      Sign1(protectedHeader, unprotectedHeader, receivedPayload, signature)
    }

    /** The envelope as it is after its payload has been replaced by p. */
    function WithPayload(p: CborValue): (s: Sign1)
      ensures s.payload == p
      ensures s.protectedHeader == protectedHeader && s.unprotectedHeader == unprotectedHeader
      ensures s.signature == signature
    {
      Sign1(protectedHeader, unprotectedHeader, p, signature)
    }

    /** The single mutation: the payload becomes the byte string b, the
        headers and the signature stay. */
    method SetPayload(b: ByteString)
      modifies this
      ensures payload == Bytes(b)
      ensures View() == old(View()).(payload := Bytes(b)) == WithPayload(Bytes(b))
    {
      payload := Bytes(b);
    }

    /** The first certificate of the unprotected header's x5chain; a missing
        or empty chain throws. */
    function GetSigningCertificate(): (r: Result<ByteString, Failure>)
      ensures r.Success? <==> X5Chain(unprotectedHeader).Some? && |X5Chain(unprotectedHeader).value| > 0
      ensures r.Success? ==> r.value == X5Chain(unprotectedHeader).value[0]
    {
      match X5Chain(unprotectedHeader)
      case None => Failure(Malformed)
      case Some(chain) => if |chain| == 0 then Failure(Malformed) else Success(chain[0])
    }
  }

  /** `from`: a fresh envelope holding exactly what Parse reads. */
  method From(lib: Library, parsed: CborValue) returns (r: Result<COSESign1Ext, Failure>)
    ensures r.Success? <==> IsEnvelope(lib, parsed)
    ensures r.Success? ==> fresh(r.value) && r.value.View() == r.value.Received() == Parse(lib, parsed).value
  {
    var envelope := Parse(lib, parsed);
    if envelope.Failure? {
      return Failure(envelope.error);
    }
    var s := envelope.value;
    var e := new COSESign1Ext(s.protectedHeader, s.unprotectedHeader, s.payload, s.signature);
    r := Success(e);
  }
}
