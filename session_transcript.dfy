/** The SessionTranscript a device signs over (section 9.1.5.1 of
    ISO/IEC 18013-5): it is rebuilt by the verifier, never transmitted. */
module SessionTranscript {
  import opened Wrappers
  import opened Cbor

  datatype SessionTranscript = SessionTranscript(handOver: CborValue) {

    /** [DeviceEngagementBytes, EReaderKeyBytes, Handover], both leading
        elements null. */
    function AsCbor(): (r: CborValue)
      ensures HandoverOf(r) == Some(handOver)
    {
      Arr([Null, Null, handOver])
    }
  }

  /** The handover of a transcript item, or None when the item does not have
      the transcript's shape. */
  function HandoverOf(v: CborValue): Option<CborValue> {
    if v.Arr? && |v.items| == 3 && v.items[0] == Null && v.items[1] == Null then Some(v.items[2])
    else None
  }

  /** Every item that has the transcript's shape is the item of the
      transcript built on its handover. */
  lemma HandoverOfInverse(v: CborValue)
    requires HandoverOf(v).Some?
    ensures SessionTranscript(HandoverOf(v).value).AsCbor() == v
  {
    assert v.items == [Null, Null, v.items[2]];
  }

  /** The hash of [text, mdocGeneratedNonce] that the OID4VP handover carries. */
  function HashedPair(lib: Library, text: string, mdocGeneratedNonce: string): ByteString {
    lib.sha256(lib.encode(Arr([Text(text), Text(mdocGeneratedNonce)])))
  }

  /** The OID4VP handover (Annex B of ISO/IEC TS 18013-7):
      [clientIdHash, responseUriHash, nonce]. */
  function ForOid4VP(lib: Library, clientId: string, responseUri: string, nonce: string,
                     mdocGeneratedNonce: string): (t: SessionTranscript)
    ensures Oid4VPHandoverOf(t.handOver) ==
      Some((HashedPair(lib, clientId, mdocGeneratedNonce), HashedPair(lib, responseUri, mdocGeneratedNonce), nonce))
  {
    var clientIdHash := HashedPair(lib, clientId, mdocGeneratedNonce);
    var responseUriHash := HashedPair(lib, responseUri, mdocGeneratedNonce);
    SessionTranscript(Arr([Bytes(clientIdHash), Bytes(responseUriHash), Text(nonce)]))
  }

  /** Reads an OID4VP handover back: (clientIdHash, responseUriHash, nonce). */
  function Oid4VPHandoverOf(h: CborValue): Option<(ByteString, ByteString, string)> {
    if h.Arr? && |h.items| == 3 && h.items[0].Bytes? && h.items[1].Bytes? && h.items[2].Text? then
      Some((h.items[0].bytes, h.items[1].bytes, h.items[2].s))
    else None
  }

  /** When the client id is the response URI the two hashes are of the same
      two-element list, so they are equal. */
  lemma SameClientIdAndResponseUriSameHash(lib: Library, clientId: string, responseUri: string,
                                           nonce: string, mdocGeneratedNonce: string)
    requires clientId == responseUri
    ensures var h := ForOid4VP(lib, clientId, responseUri, nonce, mdocGeneratedNonce).handOver;
            h.items[0] == h.items[1]
  {
  }

  /** The signed-QR handover: [mdocGeneratedNonce, validFrom, validTo], both
      instants in epoch seconds. A null nonce becomes a null item. */
  function ForSignedQR(validFrom: int, validTo: int, mdocGeneratedNonce: Option<string>): (t: SessionTranscript)
    ensures SignedQRHandoverOf(t.handOver) == Some((mdocGeneratedNonce, validFrom, validTo))
  {
    SessionTranscript(Arr([TextOrNull(mdocGeneratedNonce), Int(validFrom), Int(validTo)]))
  }

  /** Reads a signed-QR handover back: (mdocGeneratedNonce, validFrom, validTo). */
  function SignedQRHandoverOf(h: CborValue): Option<(Option<string>, int, int)> {
    if h.Arr? && |h.items| == 3 && (h.items[0].Text? || h.items[0].Null?) && h.items[1].Int? && h.items[2].Int? then
      Some((if h.items[0].Text? then Some(h.items[0].s) else None, h.items[1].i, h.items[2].i))
    else None
  }

  /** A signed-QR transcript pins its nonce and its whole validity window: two
      payloads that differ in any of them are bound to different transcripts. */
  lemma ForSignedQRInjective(validFrom: int, validTo: int, nonce: Option<string>,
                             validFrom': int, validTo': int, nonce': Option<string>)
    requires ForSignedQR(validFrom, validTo, nonce) == ForSignedQR(validFrom', validTo', nonce')
    ensures validFrom == validFrom' && validTo == validTo' && nonce == nonce'
  {
    assert SignedQRHandoverOf(ForSignedQR(validFrom, validTo, nonce).handOver) ==
           SignedQRHandoverOf(ForSignedQR(validFrom', validTo', nonce').handOver);
  }
}
