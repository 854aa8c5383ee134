/** The signed QR payload: an mdoc document presented in a QR code together
    with a nonce and a validity window, the window's gates and the device
    signature check bound to the signed-QR session transcript.

    QRPayload = { "m": tstr, "f": uint, "t": uint, "d": bstr }

    Instants and durations are whole epoch seconds. */
module SignedQRPayload {
  import opened Wrappers
  import opened Failures
  import opened Cbor
  import CoseVerifier
  import SessionTranscript
  import DocumentExt

  /** The range of java.time.Instant, in epoch seconds. */
  const INSTANT_MIN_SECOND: int := -31557014167219200
  const INSTANT_MAX_SECOND: int := 31556889864403199

  /** The defaults of the configuration fields, in seconds. */
  const DEFAULT_MAX_ALLOWED_TIME_TO_LIVE: int := 190
  const DEFAULT_ALLOWED_CLOCK_SKEW: int := 60

  /** java.time.Clock: the system clock, whose reading is an input of every
      check, or a clock fixed at one instant. */
  datatype Clock = SystemUTC | Fixed(instant: int)

  /** `assertTimeToLiveValid`: the window may be at most maxTimeToLive long. */
  function TimeToLiveGate(validFrom: int, validTo: int, maxTimeToLive: int): (r: Outcome<Failure>)
    ensures r.Pass? <==> validTo - validFrom <= maxTimeToLive
    ensures r.Fail? ==> r.error == LifetimeTooLong(maxTimeToLive)
  {
    if validTo - maxTimeToLive > validFrom then Fail(LifetimeTooLong(maxTimeToLive)) else Pass
  }

  /** `assertNotExpiredOrNotYetValid`: a negative skew is refused before any
      instant is compared; then now must lie in the window widened by the
      skew on both sides, expiry being checked first. */
  function TemporalGate(validFrom: int, validTo: int, skew: int, now: int): (r: Outcome<Failure>)
    ensures r.Pass? <==> 0 <= skew && validFrom - skew <= now <= validTo + skew
    ensures r == Fail(NegativeClockSkew) <==> skew < 0
    ensures r == Fail(Expired(validTo)) <==> 0 <= skew && validTo + skew < now
    ensures r == Fail(NotYetValid(validFrom)) <==> 0 <= skew && now <= validTo + skew && now < validFrom - skew
  {
    if skew < 0 then Fail(NegativeClockSkew)
    else if now > validTo + skew then Fail(Expired(validTo))
    else if now < validFrom - skew then Fail(NotYetValid(validFrom))
    else Pass
  }

  /** Widening the skew never turns an accepted instant into a refused one. */
  lemma TemporalGateMonotoneInSkew(validFrom: int, validTo: int, skew: int, wider: int, now: int)
    requires skew <= wider
    requires TemporalGate(validFrom, validTo, skew, now).Pass?
    ensures TemporalGate(validFrom, validTo, wider, now).Pass?
  {
  }

  /** With the defaults, a window of 190 seconds is accepted and one of 191
      seconds refused; a window exactly the allowed length passes. */
  lemma DefaultTimeToLive(validFrom: int)
    ensures TimeToLiveGate(validFrom, validFrom + 190, DEFAULT_MAX_ALLOWED_TIME_TO_LIVE).Pass?
    ensures TimeToLiveGate(validFrom, validFrom + 191, DEFAULT_MAX_ALLOWED_TIME_TO_LIVE) ==
            Fail(LifetimeTooLong(DEFAULT_MAX_ALLOWED_TIME_TO_LIVE))
  {
  }

  /** The instants of the signed-QR scenarios: a window 2025-06-03T11:51:03Z
      to 11:54:03Z, a lifetime of 180 seconds and a skew of 60 seconds. */
  lemma SignedQRScenarios()
    ensures TimeToLiveGate(1748951463, 1748951643, 180).Pass?
    ensures TemporalGate(1748951463, 1748951643, 60, 1748951580).Pass?
    ensures TemporalGate(1748951463, 1748951643, 60, 1748951880) == Fail(Expired(1748951643))
    ensures TemporalGate(1748951463, 1748951643, 60, 1748950200) == Fail(NotYetValid(1748951463))
    ensures TemporalGate(1748951463, 1748951643, 60, 1748951673).Pass?
    ensures TemporalGate(1748951463, 1748951643, 60, 1748951433).Pass?
    ensures TemporalGate(1748951463, 1748951643, 60, 1748951703).Pass?
    ensures TemporalGate(1748951463, 1748951643, 60, 1748951704) == Fail(Expired(1748951643))
    ensures TemporalGate(1748951463, 1748951643, 60, 1748951403).Pass?
    ensures TemporalGate(1748951463, 1748951643, 60, 1748951402) == Fail(NotYetValid(1748951463))
  {
  }

  /** `assertValid`: the lifetime, then the window, then the device
      signature; the first failure is the outcome. */
  function Validate(lifetime: Outcome<Failure>, window: Outcome<Failure>, signature: Outcome<Failure>): (r: Outcome<Failure>)
    ensures r.Pass? <==> lifetime.Pass? && window.Pass? && signature.Pass?
    ensures lifetime.Fail? ==> r == lifetime
    ensures lifetime.Pass? && window.Fail? ==> r == window
    ensures lifetime.Pass? && window.Pass? ==> r == signature
  {
    if lifetime.Fail? then lifetime
    else if window.Fail? then window
    else signature
  }

  /** `asEpochSecond`: an Integer or a Long taken as epoch seconds; any other
      value, null included, is refused, and a Long outside Instant's range
      makes `Instant.ofEpochSecond` throw. */
  function AsEpochSecond(v: CborValue): (r: Result<int, Failure>)
    ensures r.Success? <==> v.Int? && INSTANT_MIN_SECOND <= v.i <= INSTANT_MAX_SECOND
    ensures r.Success? ==> v == Int(r.value)
    ensures !(v.Int? && IsJavaLong(v.i)) ==> r == Failure(NotAnEpochSecond)
  {
    if !(v.Int? && IsJavaLong(v.i)) then Failure(NotAnEpochSecond)
    else if v.i < INSTANT_MIN_SECOND || v.i > INSTANT_MAX_SECOND then Failure(Malformed)
    else Success(v.i)
  }

  /** `asMap`: the first item parsed from the bytes, which must be a map. */
  function AsMap(lib: Library, bytes: ByteString): (r: Result<Pairs, Failure>)
    ensures r.Success? <==> lib.decodeNext(bytes).Some? && lib.decodeNext(bytes).value.MapV?
    ensures r.Success? ==> lib.decodeNext(bytes) == Some(MapV(r.value))
  {
    var item :- DecodeNext(lib, bytes);
    RequireMap(item)
  }

  /** What the constructor reads out of the QR data before it builds the
      document: the nonce, the two instants and the document's map. */
  datatype Fields = Fields(mdocGeneratedNonce: Option<string>, validFrom: int, validTo: int, document: CborValue)

  /** The constructor up to `DocumentExt.from`: base64url, then the payload
      map, then "m", "f", "t" and "d" in that order. */
  function FieldsOf(lib: Library, qrData: string): (r: Result<Fields, Failure>)
    ensures lib.base64UrlDecode(qrData).None? ==> r == Failure(Malformed)
    ensures r.Success? ==>
      && lib.base64UrlDecode(qrData).Some?
      && AsMap(lib, lib.base64UrlDecode(qrData).value).Success?
      && var m := AsMap(lib, lib.base64UrlDecode(qrData).value).value;
         && TextOrNull(r.value.mdocGeneratedNonce) == Get(m, Text("m"))
         && Get(m, Text("f")) == Int(r.value.validFrom)
         && Get(m, Text("t")) == Int(r.value.validTo)
         && Get(m, Text("d")).Bytes?
         && lib.decodeNext(Get(m, Text("d")).bytes) == Some(r.value.document)
         && r.value.document.MapV?
  {
    match lib.base64UrlDecode(qrData)
    case None => Failure(Malformed)
    case Some(decoded) =>
      var m :- AsMap(lib, decoded);
      var nonce :- AsString(Get(m, Text("m")));
      var validFrom :- AsEpochSecond(Get(m, Text("f")));
      var validTo :- AsEpochSecond(Get(m, Text("t")));
      var document :- RequireBytes(Get(m, Text("d")));
      var documentMap :- AsMap(lib, document);
      Success(Fields(nonce, validFrom, validTo, MapV(documentMap)))
  }

  /** The payload map a QR code carries for these fields, the document as
      its encoded map. */
  function PayloadMap(lib: Library, nonce: string, validFrom: int, validTo: int, document: Pairs): CborValue {
    MapV([(Text("m"), Text(nonce)), (Text("f"), Int(validFrom)), (Text("t"), Int(validTo)),
          (Text("d"), Bytes(lib.encode(MapV(document))))])
  }

  /** Round trip: QR data whose base64url content is an encoded payload map
      reads back as the nonce, the instants and the document's generic view. */
  lemma FieldsOfEncodedPayload(lib: Library, qrData: string, nonce: string, validFrom: int, validTo: int, document: Pairs)
    requires Lawful(lib)
    requires lib.base64UrlDecode(qrData) == Some(lib.encode(PayloadMap(lib, nonce, validFrom, validTo, document)))
    requires INSTANT_MIN_SECOND <= validFrom <= INSTANT_MAX_SECOND
    requires INSTANT_MIN_SECOND <= validTo <= INSTANT_MAX_SECOND
    ensures FieldsOf(lib, qrData) == Success(Fields(Some(nonce), validFrom, validTo, Plain(MapV(document))))
  {
    var entries := [(Text("m"), Text(nonce)), (Text("f"), Int(validFrom)), (Text("t"), Int(validTo)),
                    (Text("d"), Bytes(lib.encode(MapV(document))))];
    var p := PayloadMap(lib, nonce, validFrom, validTo, document);
    assert p == MapV(entries);
    var m := Plain(p).entries;
    assert m == seq(4, i requires 0 <= i < 4 => (Plain(entries[i].0), Plain(entries[i].1)));
    assert m[0] == (Text("m"), Text(nonce));
    assert m[1] == (Text("f"), Int(validFrom));
    assert m[2] == (Text("t"), Int(validTo));
    assert m[3] == (Text("d"), Bytes(lib.encode(MapV(document))));
    assert AsMap(lib, lib.encode(p)) == Success(m);
    assert Get(m, Text("m")) == Text(nonce);
    assert Get(m, Text("f")) == Int(validFrom);
    assert Get(m[2..], Text("t")) == Int(validTo);
    assert Get(m, Text("t")) == Get(m[1..], Text("t")) == Get(m[2..], Text("t"));
    assert Get(m[3..], Text("d")) == Bytes(lib.encode(MapV(document)));
    assert Get(m, Text("d")) == Get(m[1..], Text("d")) == Get(m[2..], Text("d")) == Get(m[3..], Text("d")) by {
      assert m[1..][1..] == m[2..] && m[2..][1..] == m[3..];
    }
    assert lib.decodeNext(lib.encode(MapV(document))) == Some(Plain(MapV(document)));
    assert AsMap(lib, lib.encode(MapV(document))) == Success(Plain(MapV(document)).entries);
    assert AsEpochSecond(Int(validFrom)) == Success(validFrom);
    assert AsEpochSecond(Int(validTo)) == Success(validTo);
    assert AsString(Get(m, Text("m"))) == Success(Some(nonce));
    assert RequireBytes(Get(m, Text("d"))) == Success(lib.encode(MapV(document)));
    assert MapV(Plain(MapV(document)).entries) == Plain(MapV(document));
  }

  /** The payload: an immutable window and document, and the configuration
      the setters change. */
  class SignedQRPayload {
    const mdocGeneratedNonce: Option<string>
    const validFrom: int
    const validTo: int
    const document: DocumentExt.DocumentExt
    var clock: Clock
    /** The longest window accepted, in seconds. */
    var maxAllowedTimeToLive: int
    /** The skew allowed on both ends of the window, in seconds. */
    var allowedClockSkew: int

    /** A constructed payload has a non-empty window and a document whose
        envelopes are distinct. */
    predicate Valid() {
      validFrom < validTo && document.Valid()
    }

    /** The constructor's assignments once the QR data is read: the default
        clock, lifetime and skew. */
    constructor (mdocGeneratedNonce: Option<string>, validFrom: int, validTo: int, document: DocumentExt.DocumentExt)
      ensures this.mdocGeneratedNonce == mdocGeneratedNonce && this.validFrom == validFrom && this.validTo == validTo
      ensures this.document == document
      ensures clock == SystemUTC
      ensures maxAllowedTimeToLive == DEFAULT_MAX_ALLOWED_TIME_TO_LIVE
      ensures allowedClockSkew == DEFAULT_ALLOWED_CLOCK_SKEW
    {
      this.mdocGeneratedNonce := mdocGeneratedNonce;
      this.validFrom := validFrom;
      this.validTo := validTo;
      this.document := document;
      clock := SystemUTC;
      maxAllowedTimeToLive := DEFAULT_MAX_ALLOWED_TIME_TO_LIVE;
      allowedClockSkew := DEFAULT_ALLOWED_CLOCK_SKEW;
    }

    method SetClock(clock: Clock)
      modifies this
      ensures this.clock == clock
      ensures maxAllowedTimeToLive == old(maxAllowedTimeToLive) && allowedClockSkew == old(allowedClockSkew)
    {
      this.clock := clock;
    }

    method SetMaxAllowedTimeToLive(seconds: int)
      modifies this
      ensures maxAllowedTimeToLive == seconds
      ensures clock == old(clock) && allowedClockSkew == old(allowedClockSkew)
    {
      maxAllowedTimeToLive := seconds;
    }

    method SetAllowedClockSkew(seconds: int)
      modifies this
      ensures allowedClockSkew == seconds
      ensures clock == old(clock) && maxAllowedTimeToLive == old(maxAllowedTimeToLive)
    {
      allowedClockSkew := seconds;
    }

    /** `clock.instant()`: systemNow is what the system clock reads. */
    function Now(systemNow: int): (t: int)
      reads this
      ensures clock.SystemUTC? ==> t == systemNow
      ensures clock.Fixed? ==> t == clock.instant
    {
      match clock
      case SystemUTC => systemNow
      case Fixed(instant) => instant
    }

    /** The transcript the device signed over: this payload's own nonce and
        window. */
    function Transcript(): (t: SessionTranscript.SessionTranscript)
      ensures SessionTranscript.SignedQRHandoverOf(t.handOver) == Some((mdocGeneratedNonce, validFrom, validTo))
    {
      SessionTranscript.ForSignedQR(validFrom, validTo, mdocGeneratedNonce)
    }

    method AssertTimeToLiveValid() returns (r: Outcome<Failure>)
      ensures r == TimeToLiveGate(validFrom, validTo, maxAllowedTimeToLive)
    {
      if validTo - maxAllowedTimeToLive > validFrom {
        return Fail(LifetimeTooLong(maxAllowedTimeToLive));
      }
      return Pass;
    }

    method AssertNotExpiredOrNotYetValid(systemNow: int) returns (r: Outcome<Failure>)
      ensures r == TemporalGate(validFrom, validTo, allowedClockSkew, Now(systemNow))
    {
      if allowedClockSkew < 0 {
        return Fail(NegativeClockSkew);
      }
      var now := Now(systemNow);
      if now > validTo + allowedClockSkew {
        return Fail(Expired(validTo));
      }
      if now < validFrom - allowedClockSkew {
        return Fail(NotYetValid(validFrom));
      }
      return Pass;
    }

    /** `assertDeviceSignatureValid`: the document's device check over the
        signed-QR transcript. */
    method AssertDeviceSignatureValid(lib: Library, crypto: CoseVerifier.Crypto) returns (r: Outcome<Failure>)
      modifies document.DeviceEnvelopes()
      ensures r == document.DeviceSignatureOutcome(lib, crypto, Transcript())
      ensures document.deviceSigned.Some? ==>
        var signature := document.deviceSigned.value.GetDeviceSignature();
        signature.View() == old(signature.View()).(payload := Bytes(document.SignedBytes(lib, Transcript())))
      ensures Valid() ==> unchanged(document.issuerSigned.issuerAuth)
    {
      var transcript := SessionTranscript.ForSignedQR(validFrom, validTo, mdocGeneratedNonce);
      r := document.AssertSignatureValid(lib, crypto, transcript);
    }

    /** `assertValid`: the device envelope is only rewritten once both gates
        have passed. */
    method AssertValid(lib: Library, crypto: CoseVerifier.Crypto, systemNow: int) returns (r: Outcome<Failure>)
      modifies document.DeviceEnvelopes()
      ensures r == Validate(TimeToLiveGate(validFrom, validTo, maxAllowedTimeToLive),
                            TemporalGate(validFrom, validTo, allowedClockSkew, Now(systemNow)),
                            document.DeviceSignatureOutcome(lib, crypto, Transcript()))
      ensures TimeToLiveGate(validFrom, validTo, maxAllowedTimeToLive).Fail? ||
              TemporalGate(validFrom, validTo, allowedClockSkew, Now(systemNow)).Fail? ==>
        unchanged(document.DeviceEnvelopes())
      ensures TimeToLiveGate(validFrom, validTo, maxAllowedTimeToLive).Pass? &&
              TemporalGate(validFrom, validTo, allowedClockSkew, Now(systemNow)).Pass? &&
              document.deviceSigned.Some? ==>
        var signature := document.deviceSigned.value.GetDeviceSignature();
        signature.View() == old(signature.View()).(payload := Bytes(document.SignedBytes(lib, Transcript())))
      ensures Valid() ==> unchanged(document.issuerSigned.issuerAuth)
    {
      r := AssertTimeToLiveValid();
      if r.Fail? {
        return;
      }
      r := AssertNotExpiredOrNotYetValid(systemNow);
      if r.Fail? {
        return;
      }
      r := AssertDeviceSignatureValid(lib, crypto);
    }
  }

  /** `new SignedQRPayload(qrData)`: the fields, then `DocumentExt.from` on
      the document's map, then the window must be non-empty. */
  method FromQrData(lib: Library, qrData: string) returns (r: Result<SignedQRPayload, Failure>)
    ensures r.Success? <==>
      && FieldsOf(lib, qrData).Success?
      && DocumentExt.WellFormed(lib, FieldsOf(lib, qrData).value.document)
      && FieldsOf(lib, qrData).value.validFrom < FieldsOf(lib, qrData).value.validTo
    ensures FieldsOf(lib, qrData).Failure? ==> r == Failure(FieldsOf(lib, qrData).error)
    ensures FieldsOf(lib, qrData).Success? && DocumentExt.WellFormed(lib, FieldsOf(lib, qrData).value.document) &&
            FieldsOf(lib, qrData).value.validTo <= FieldsOf(lib, qrData).value.validFrom ==>
      r == Failure(InvalidValidityWindow)
    ensures r.Success? ==>
      var fields := FieldsOf(lib, qrData).value;
      && fresh(r.value) && fresh(r.value.document.issuerSigned.issuerAuth) && fresh(r.value.document.DeviceEnvelopes())
      && r.value.Valid()
      && r.value.mdocGeneratedNonce == fields.mdocGeneratedNonce
      && r.value.validFrom == fields.validFrom && r.value.validTo == fields.validTo
      && DocumentExt.Represents(lib, fields.document, r.value.document)
      && r.value.clock == SystemUTC
      && r.value.maxAllowedTimeToLive == DEFAULT_MAX_ALLOWED_TIME_TO_LIVE
      && r.value.allowedClockSkew == DEFAULT_ALLOWED_CLOCK_SKEW
  {
    var fields := FieldsOf(lib, qrData);
    if fields.Failure? {
      return Failure(fields.error);
    }
    var document := DocumentExt.From(lib, fields.value.document);
    if document.Failure? {
      return Failure(document.error);
    }
    if !(fields.value.validTo > fields.value.validFrom) {
      return Failure(InvalidValidityWindow);
    }
    var payload := new SignedQRPayload(fields.value.mdocGeneratedNonce, fields.value.validFrom, fields.value.validTo,
                                       document.value);
    r := Success(payload);
  }
}
