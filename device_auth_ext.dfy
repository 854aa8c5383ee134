/** DeviceAuth (section 8.3.2.1.2.2 of ISO/IEC 18013-5), in the form the
    verifier supports: a deviceSignature COSE_Sign1 envelope. */
module DeviceAuthExt {
  import opened Wrappers
  import opened Failures
  import opened Cbor
  import COSESign1Ext

  datatype DeviceAuthExt = DeviceAuthExt(signature: COSESign1Ext.COSESign1Ext)

  /** What `from` accepts: a map whose "deviceSignature" is an envelope. */
  predicate WellFormed(lib: Library, cbor: CborValue) {
    cbor.MapV? && COSESign1Ext.IsEnvelope(lib, Get(cbor.entries, Text("deviceSignature")))
  }

  ghost predicate Represents(lib: Library, cbor: CborValue, r: DeviceAuthExt)
    reads r.signature
  {
    && WellFormed(lib, cbor)
    && r.signature.View() == r.signature.Received() == COSESign1Ext.Parse(lib, Get(cbor.entries, Text("deviceSignature"))).value
  }

  /** `from`: a fresh envelope parsed from the list under "deviceSignature";
      no other key is read. */
  method From(lib: Library, cbor: CborValue) returns (r: Result<DeviceAuthExt, Failure>)
    ensures r.Success? <==> WellFormed(lib, cbor)
    ensures r.Success? ==> fresh(r.value.signature) && Represents(lib, cbor, r.value)
  {
    if !cbor.MapV? {
      return Failure(Malformed);
    }
    var signature := COSESign1Ext.From(lib, Get(cbor.entries, Text("deviceSignature")));
    if signature.Failure? {
      return Failure(signature.error);
    }
    r := Success(DeviceAuthExt(signature.value));
  }
}
