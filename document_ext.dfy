/** Document (section 8.3.2.1.2.2 of ISO/IEC 18013-5) and the device
    signature check over it. */
module DocumentExt {
  import opened Wrappers
  import opened Failures
  import opened Cbor
  import COSESign1Ext
  import CoseVerifier
  import SessionTranscript
  import DeviceAuthentication
  import IssuerSignedExt
  import DeviceSignedExt
  import IssuerNameSpacesExt
  import MobileSecurityObjectExt
  import DeviceKeyInfoExt

  /** deviceSigned is None when the two-argument constructor built the
      document. */
  datatype DocumentExt = DocumentExt(
    docType: Option<string>,
    issuerSigned: IssuerSignedExt.IssuerSignedExt,
    deviceSigned: Option<DeviceSignedExt.DeviceSignedExt>,
    errors: Option<CborValue>)
  {
    /** The issuer's and the device's envelopes are distinct objects, so that
        rewriting the device payload leaves the issuer envelope alone. */
    predicate Valid() {
      deviceSigned.Some? ==> issuerSigned.issuerAuth != deviceSigned.value.GetDeviceSignature()
    }

    /** The envelopes the device check may rewrite. */
    function DeviceEnvelopes(): set<COSESign1Ext.COSESign1Ext> {
      if deviceSigned.Some? then {deviceSigned.value.GetDeviceSignature()} else {}
    }

    /** Neither envelope has had its payload replaced since it was built. */
    ghost predicate Unrewritten()
      reads Envelopes()
    {
      && issuerSigned.issuerAuth.payload == issuerSigned.issuerAuth.receivedPayload
      && (deviceSigned.Some? ==>
            deviceSigned.value.GetDeviceSignature().payload == deviceSigned.value.GetDeviceSignature().receivedPayload)
    }

    /** Every envelope the document holds. */
    function Envelopes(): set<COSESign1Ext.COSESign1Ext> {
      {issuerSigned.issuerAuth} + DeviceEnvelopes()
    }

    /** The document as the CBOR pair list DeviceAuthentication looks into:
        its docType and, when present, its deviceSigned pair list with the
        device name spaces. */
    function PairView(lib: Library): (p: Pairs)
      ensures Get(p, Text("docType")) == TextOrNull(docType)
    {
      [(Text("docType"), TextOrNull(docType))] +
      if deviceSigned.Some? then
        [(Text("deviceSigned"), MapV([(Text("nameSpaces"), deviceSigned.value.nameSpaces.AsCbor(lib))]))]
      else []
    }

    /** The public key `assertSignatureValid` uses: the EC2 key of the MSO's
        deviceKeyInfo, not anything from the device envelope. */
    function DeviceKey(): (k: CoseVerifier.PublicKey)
      ensures k == CoseVerifier.Ec2Key(issuerSigned.mobileSecurityObject.deviceKeyInfo.deviceKey.pairs)
    {
      CoseVerifier.Ec2Key(issuerSigned.mobileSecurityObject.deviceKeyInfo.deviceKey.pairs)
    }

    /** The DeviceAuthentication bytes the device signed over: docType and
        the device name spaces of this document, with the transcript. */
    function SignedBytes(lib: Library, transcript: SessionTranscript.SessionTranscript): ByteString
      requires deviceSigned.Some?
    {
      EncodedCborData(lib, DeviceAuthentication.Structure(transcript, TextOrNull(docType),
                                                          deviceSigned.value.nameSpaces.AsCbor(lib)))
    }

    /** The outcome of `assertSignatureValid`: the device envelope, with its
        payload replaced by the recomputed DeviceAuthentication bytes, must
        verify under the MSO's device key. */
    function DeviceSignatureOutcome(lib: Library, crypto: CoseVerifier.Crypto,
                                    transcript: SessionTranscript.SessionTranscript): (r: Outcome<Failure>)
      ensures r.Pass? <==>
        && deviceSigned.Some?
        && crypto.verify(DeviceKey(), deviceSigned.value.GetDeviceSignature().WithPayload(Bytes(SignedBytes(lib, transcript))))
      ensures deviceSigned.Some? && r.Fail? ==> r.error == DeviceSignatureInvalid
      ensures deviceSigned.None? ==> r == Fail(Malformed)
    {
      match deviceSigned
      case None => Fail(Malformed)
      case Some(ds) =>
        EncodeOfPairView(lib, transcript);
        var bytes := DeviceAuthentication.DeviceAuthentication(transcript, PairView(lib)).Encode(lib).value;
        if crypto.verify(DeviceKey(), ds.GetDeviceSignature().WithPayload(Bytes(bytes))) then Pass
        else Fail(DeviceSignatureInvalid)
    }

    /** DeviceAuthentication over this document finds docType and the device
        name spaces, and encodes exactly SignedBytes. */
    lemma EncodeOfPairView(lib: Library, transcript: SessionTranscript.SessionTranscript)
      requires deviceSigned.Some?
      ensures DeviceAuthentication.DeviceAuthentication(transcript, PairView(lib)).Encode(lib) ==
              Success(SignedBytes(lib, transcript))
    {
      var p := PairView(lib);
      assert p[0].0 == Text("docType") && p[1].0 == Text("deviceSigned");
      assert HasKey(p, Text("docType")) && HasKey(p, Text("deviceSigned"));
      var inner := p[1].1.entries;
      assert inner[0].0 == Text("nameSpaces");
      assert HasKey(inner, Text("nameSpaces"));
    }

    /** `assertSignatureValid`: sets the device envelope's payload to the
        recomputed DeviceAuthentication bytes, then verifies it with the MSO's
        device key. The new payload stays in the envelope whatever the
        verdict. */
    method AssertSignatureValid(lib: Library, crypto: CoseVerifier.Crypto,
                                transcript: SessionTranscript.SessionTranscript) returns (r: Outcome<Failure>)
      modifies DeviceEnvelopes()
      ensures r == DeviceSignatureOutcome(lib, crypto, transcript)
      ensures deviceSigned.Some? ==>
        var signature := deviceSigned.value.GetDeviceSignature();
        && signature.payload == Bytes(SignedBytes(lib, transcript))
        && signature.View() == old(signature.View()).(payload := Bytes(SignedBytes(lib, transcript)))
      ensures Valid() ==> unchanged(issuerSigned.issuerAuth)
    {
      if deviceSigned.None? {
        return Fail(Malformed);
      }
      var signature := deviceSigned.value.GetDeviceSignature();
      var key := DeviceKey();
      var deviceAuthentication := DeviceAuthentication.DeviceAuthentication(transcript, PairView(lib));
      EncodeOfPairView(lib, transcript);
      var encoded := deviceAuthentication.Encode(lib).value;
      signature.SetPayload(encoded);
      if crypto.verify(key, signature.View()) {
        r := Pass;
      } else {
        r := Fail(DeviceSignatureInvalid);
      }
    }
  }

  /** The two-argument constructor: no device-signed part and no errors. */
  function WithoutDeviceSigned(docType: Option<string>, issuerSigned: IssuerSignedExt.IssuerSignedExt): (d: DocumentExt)
    ensures d.deviceSigned.None? && d.errors.None?
    ensures d.docType == docType && d.issuerSigned == issuerSigned
  {
    DocumentExt(docType, issuerSigned, None, None)
  }

  /** A document built without its device-signed part cannot pass the device
      check: the source dereferences the missing part and throws. */
  lemma NoDeviceSignedFails(d: DocumentExt, lib: Library, crypto: CoseVerifier.Crypto,
                            transcript: SessionTranscript.SessionTranscript)
    requires d.deviceSigned.None?
    ensures d.DeviceSignatureOutcome(lib, crypto, transcript) == Fail(Malformed)
  {
  }

  /** The device check depends on the device envelope only through its
      headers and signature: whatever payload it arrived with is ignored. */
  lemma OutcomeIgnoresTransmittedPayload(d: DocumentExt, d': DocumentExt, lib: Library,
                                         crypto: CoseVerifier.Crypto, transcript: SessionTranscript.SessionTranscript)
    requires d.deviceSigned.Some? && d'.deviceSigned.Some?
    requires d.docType == d'.docType && d.issuerSigned.mobileSecurityObject == d'.issuerSigned.mobileSecurityObject
    requires d.deviceSigned.value.nameSpaces == d'.deviceSigned.value.nameSpaces
    requires var s := d.deviceSigned.value.GetDeviceSignature(); var s' := d'.deviceSigned.value.GetDeviceSignature();
      s.protectedHeader == s'.protectedHeader && s.unprotectedHeader == s'.unprotectedHeader && s.signature == s'.signature
    ensures d.DeviceSignatureOutcome(lib, crypto, transcript) == d'.DeviceSignatureOutcome(lib, crypto, transcript)
  {
    var s := d.deviceSigned.value.GetDeviceSignature();
    var s' := d'.deviceSigned.value.GetDeviceSignature();
    assert d.SignedBytes(lib, transcript) == d'.SignedBytes(lib, transcript);
    assert s.WithPayload(Bytes(d.SignedBytes(lib, transcript))) == s'.WithPayload(Bytes(d.SignedBytes(lib, transcript)));
  }

  /** What `from` accepts: a map whose "issuerSigned" and "deviceSigned" are
      well formed and whose "docType" is a String or null. */
  predicate WellFormed(lib: Library, cbor: CborValue) {
    && cbor.MapV?
    && IssuerSignedExt.WellFormed(lib, Get(cbor.entries, Text("issuerSigned")))
    && DeviceSignedExt.WellFormed(lib, Get(cbor.entries, Text("deviceSigned")))
    && (Get(cbor.entries, Text("docType")).Null? || Get(cbor.entries, Text("docType")).Text?)
  }

  ghost predicate Represents(lib: Library, cbor: CborValue, d: DocumentExt)
    reads d.issuerSigned.issuerAuth, d.DeviceEnvelopes()
  {
    && WellFormed(lib, cbor)
    && TextOrNull(d.docType) == Get(cbor.entries, Text("docType"))
    && IssuerSignedExt.Represents(lib, Get(cbor.entries, Text("issuerSigned")), d.issuerSigned)
    && d.deviceSigned.Some?
    && DeviceSignedExt.Represents(lib, Get(cbor.entries, Text("deviceSigned")), d.deviceSigned.value)
    && d.errors.None?
  }

  /** The parts of a document that are values, with both envelopes as they
      were built (a later `setPayload` does not show here). */
  datatype DocumentValues = DocumentValues(
    docType: Option<string>,
    nameSpaces: IssuerNameSpacesExt.IssuerNameSpacesExt,
    issuerAuth: COSESign1Ext.Sign1,
    mobileSecurityObject: MobileSecurityObjectExt.MobileSecurityObjectExt,
    deviceNameSpaces: Option<Pairs>,
    deviceSignature: Option<COSESign1Ext.Sign1>,
    errors: Option<CborValue>)

  ghost function ValuesOf(d: DocumentExt): (v: DocumentValues)
    ensures v.docType == d.docType && v.errors == d.errors
    ensures v.nameSpaces == d.issuerSigned.nameSpaces
    ensures v.issuerAuth == d.issuerSigned.issuerAuth.Received()
    ensures v.mobileSecurityObject == d.issuerSigned.mobileSecurityObject
    ensures v.deviceNameSpaces.Some? <==> d.deviceSigned.Some?
    ensures d.deviceSigned.Some? ==> v.deviceNameSpaces.value == d.deviceSigned.value.nameSpaces.nameSpaces
    ensures v.deviceSignature.Some? <==> d.deviceSigned.Some?
    ensures d.deviceSigned.Some? ==> v.deviceSignature.value == d.deviceSigned.value.GetDeviceSignature().Received()
  {
    DocumentValues(d.docType, d.issuerSigned.nameSpaces, d.issuerSigned.issuerAuth.Received(),
                   d.issuerSigned.mobileSecurityObject,
                   if d.deviceSigned.Some? then Some(d.deviceSigned.value.nameSpaces.nameSpaces) else None,
                   if d.deviceSigned.Some? then Some(d.deviceSigned.value.GetDeviceSignature().Received()) else None,
                   d.errors)
  }

  /** The values `from` reads out of cbor: docType, the issuer name spaces,
      the issuer envelope and the MSO in its payload, the empty device name
      spaces, the device envelope and the null errors. */
  predicate Content(lib: Library, cbor: CborValue, v: DocumentValues) {
    && WellFormed(lib, cbor)
    && var issuerSigned := Get(cbor.entries, Text("issuerSigned")).entries;
       var deviceAuth := Get(Get(cbor.entries, Text("deviceSigned")).entries, Text("deviceAuth")).entries;
       && TextOrNull(v.docType) == Get(cbor.entries, Text("docType"))
       && v.nameSpaces == IssuerNameSpacesExt.NameSpacesOf(lib, Get(issuerSigned, Text("nameSpaces"))).value
       && v.issuerAuth == COSESign1Ext.Parse(lib, Get(issuerSigned, Text("issuerAuth"))).value
       && v.mobileSecurityObject == MobileSecurityObjectExt.FromCbor(lib, v.issuerAuth.payload).value
       && v.deviceNameSpaces == Some([])
       && v.deviceSignature == Some(COSESign1Ext.Parse(lib, Get(deviceAuth, Text("deviceSignature"))).value)
       && v.errors.None?
  }

  /** A document that represents its input has that input's content. */
  lemma RepresentsContent(lib: Library, cbor: CborValue, d: DocumentExt)
    requires Represents(lib, cbor, d)
    ensures Content(lib, cbor, ValuesOf(d))
  {
  }

  /** A document that represents its input still holds the payloads its
      envelopes were decoded with. */
  lemma RepresentsUnrewritten(lib: Library, cbor: CborValue, d: DocumentExt)
    requires Represents(lib, cbor, d)
    ensures d.Unrewritten()
  {
  }

  /** The device check's key comes from the issuer-signed MSO, not from the
      device envelope: its pairs are the entries under "deviceKey" of the
      "deviceKeyInfo" map of the MSO that the payload of the input's issuer
      envelope carries. */
  lemma DeviceKeyFromIssuerPayload(lib: Library, cbor: CborValue, d: DocumentExt)
    requires Represents(lib, cbor, d)
    ensures var issuerAuth := Get(Get(cbor.entries, Text("issuerSigned")).entries, Text("issuerAuth"));
      var payload := issuerAuth.items[COSESign1Ext.PAYLOAD_INDEX].bytes;
      var mso := lib.decodeNext(lib.decodeNext(payload).value.bytes).value.entries;
      var deviceKeyInfo := Get(mso, Text(MobileSecurityObjectExt.DEVICE_KEY_INFO));
      && deviceKeyInfo.MapV? && Get(deviceKeyInfo.entries, Text("deviceKey")).MapV?
      && d.DeviceKey() == CoseVerifier.Ec2Key(Get(deviceKeyInfo.entries, Text("deviceKey")).entries)
  {
    var issuerAuth := Get(Get(cbor.entries, Text("issuerSigned")).entries, Text("issuerAuth"));
    var payload := issuerAuth.items[COSESign1Ext.PAYLOAD_INDEX].bytes;
    var mso := lib.decodeNext(lib.decodeNext(payload).value.bytes).value.entries;
    var deviceKeyInfo := Get(mso, Text(MobileSecurityObjectExt.DEVICE_KEY_INFO));
    DeviceKeyInfoExt.KeyInfoOfSucceeds(deviceKeyInfo);
    DeviceKeyInfoExt.KeyPairsAreDeviceKeyEntries(deviceKeyInfo);
  }

  /** `from`: issuerSigned, then deviceSigned, each from the key of the same
      name; docType cast to String last; errors always null. */
  method From(lib: Library, cbor: CborValue) returns (r: Result<DocumentExt, Failure>)
    ensures r.Success? <==> WellFormed(lib, cbor)
    ensures r.Success? ==>
      && fresh(r.value.issuerSigned.issuerAuth) && fresh(r.value.DeviceEnvelopes())
      && r.value.Valid()
      && Represents(lib, cbor, r.value)
  {
    if !cbor.MapV? {
      return Failure(Malformed);
    }
    var docType := Get(cbor.entries, Text("docType"));
    var issuerSigned := IssuerSignedExt.From(lib, Get(cbor.entries, Text("issuerSigned")));
    if issuerSigned.Failure? {
      return Failure(issuerSigned.error);
    }
    var deviceSigned := DeviceSignedExt.From(lib, Get(cbor.entries, Text("deviceSigned")));
    if deviceSigned.Failure? {
      return Failure(deviceSigned.error);
    }
    if !(docType.Null? || docType.Text?) {
      return Failure(Malformed);
    }
    r := Success(DocumentExt(if docType.Null? then None else Some(docType.s), issuerSigned.value, Some(deviceSigned.value), None));
  }
}
