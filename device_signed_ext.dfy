/** DeviceSigned (section 8.3.2.1.2.2 of ISO/IEC 18013-5): device-signed
    name spaces, which the verifier does not parse and always leaves empty,
    and the device's signature. */
module DeviceSignedExt {
  import opened Wrappers
  import opened Failures
  import opened Cbor
  import COSESign1Ext
  import DeviceAuthExt

  /** DeviceNameSpacesBytes: the device name spaces as tag-24 wrapped data. */
  datatype DeviceNameSpacesBytes = DeviceNameSpacesBytes(nameSpaces: Pairs) {
    function AsCbor(lib: Library): (r: CborValue)
      ensures r.Tag? && r.tag == ENCODED_CBOR_DATA_TAG && r.content.Bytes?
      ensures Lawful(lib) ==> lib.decodeNext(r.content.bytes) == Some(Plain(MapV(nameSpaces)))
    {
      Tag(ENCODED_CBOR_DATA_TAG, Bytes(lib.encode(MapV(nameSpaces))))
    }
  }

  datatype DeviceSignedExt = DeviceSignedExt(nameSpaces: DeviceNameSpacesBytes, deviceAuth: DeviceAuthExt.DeviceAuthExt) {
    /** `getDeviceSignature`: the envelope deviceAuth holds. Every DeviceAuth
        here holds a COSESign1Ext, so the source's downcast cannot fail. */
    function GetDeviceSignature(): (s: COSESign1Ext.COSESign1Ext)
      ensures s == deviceAuth.signature
    {
      deviceAuth.signature
    }
  }

  predicate WellFormed(lib: Library, cbor: CborValue) {
    cbor.MapV? && DeviceAuthExt.WellFormed(lib, Get(cbor.entries, Text("deviceAuth")))
  }

  ghost predicate Represents(lib: Library, cbor: CborValue, r: DeviceSignedExt)
    reads r.deviceAuth.signature
  {
    && WellFormed(lib, cbor)
    && r.nameSpaces.nameSpaces == []
    && DeviceAuthExt.Represents(lib, Get(cbor.entries, Text("deviceAuth")), r.deviceAuth)
  }

  /** `from`: the name spaces are always the empty map, whatever the input
      holds under "nameSpaces"; deviceAuth comes from the map under
      "deviceAuth". */
  method From(lib: Library, cbor: CborValue) returns (r: Result<DeviceSignedExt, Failure>)
    ensures r.Success? <==> WellFormed(lib, cbor)
    ensures r.Success? ==> fresh(r.value.deviceAuth.signature) && Represents(lib, cbor, r.value)
  {
    if !cbor.MapV? {
      return Failure(Malformed);
    }
    var deviceNameSpaces := DeviceNameSpacesBytes([]);
    var deviceAuth := DeviceAuthExt.From(lib, Get(cbor.entries, Text("deviceAuth")));
    if deviceAuth.Failure? {
      return Failure(deviceAuth.error);
    }
    r := Success(DeviceSignedExt(deviceNameSpaces, deviceAuth.value));
  }
}
