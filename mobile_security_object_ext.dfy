/** The MobileSecurityObject (section 9.1.2.4 of ISO/IEC 18013-5), carried
    as the payload of the issuer's COSE_Sign1 envelope. */
module MobileSecurityObjectExt {
  import opened Wrappers
  import opened Failures
  import opened Cbor
  import ValueDigestsExt
  import DeviceKeyInfoExt
  import ValidityInfoExt

  const VALUE_DIGESTS := "valueDigests"
  const DEVICE_KEY_INFO := "deviceKeyInfo"
  const VALIDITY_INFO := "validityInfo"

  datatype MobileSecurityObjectExt = MobileSecurityObjectExt(
    version: Option<string>,
    digestAlgorithm: Option<string>,
    valueDigests: ValueDigestsExt.ValueDigestsExt,
    deviceKeyInfo: DeviceKeyInfoExt.DeviceKeyInfoExt,
    docType: Option<string>,
    validityInfo: ValidityInfoExt.ValidityInfoExt)

  /** The four-argument constructor: version and digestAlgorithm stay unset. */
  function WithoutVersion(valueDigests: ValueDigestsExt.ValueDigestsExt, deviceKeyInfo: DeviceKeyInfoExt.DeviceKeyInfoExt,
                          docType: Option<string>, validityInfo: ValidityInfoExt.ValidityInfoExt): (r: MobileSecurityObjectExt)
    ensures r.version.None? && r.digestAlgorithm.None?
    ensures r.valueDigests == valueDigests && r.deviceKeyInfo == deviceKeyInfo
    ensures r.docType == docType && r.validityInfo == validityInfo
  {
    MobileSecurityObjectExt(None, None, valueDigests, deviceKeyInfo, docType, validityInfo)
  }

  /** The MSO read from its decoded map: the three texts under their own keys,
      the three sub-structures through their own mappers. */
  function FromMap(lib: Library, m: Pairs): (r: Result<MobileSecurityObjectExt, Failure>)
    ensures r.Success? <==>
      && (Get(m, Text("version")).Null? || Get(m, Text("version")).Text?)
      && (Get(m, Text("digestAlgorithm")).Null? || Get(m, Text("digestAlgorithm")).Text?)
      && ValueDigestsExt.DigestsOf(Get(m, Text(VALUE_DIGESTS))).Success?
      && DeviceKeyInfoExt.KeyInfoOf(Get(m, Text(DEVICE_KEY_INFO))).Success?
      && (Get(m, Text("docType")).Null? || Get(m, Text("docType")).Text?)
      && ValidityInfoExt.From(lib, Get(m, Text(VALIDITY_INFO))).Success?
    ensures r.Success? ==>
      && TextOrNull(r.value.version) == Get(m, Text("version"))
      && TextOrNull(r.value.digestAlgorithm) == Get(m, Text("digestAlgorithm"))
      && TextOrNull(r.value.docType) == Get(m, Text("docType"))
      && r.value.valueDigests == ValueDigestsExt.DigestsOf(Get(m, Text(VALUE_DIGESTS))).value
      && r.value.deviceKeyInfo == DeviceKeyInfoExt.KeyInfoOf(Get(m, Text(DEVICE_KEY_INFO))).value
      && r.value.validityInfo == ValidityInfoExt.From(lib, Get(m, Text(VALIDITY_INFO))).value
  {
    var version :- AsString(Get(m, Text("version")));
    var digestAlgorithm :- AsString(Get(m, Text("digestAlgorithm")));
    var valueDigests :- ValueDigestsExt.DigestsOf(Get(m, Text(VALUE_DIGESTS)));
    var deviceKeyInfo :- DeviceKeyInfoExt.KeyInfoOf(Get(m, Text(DEVICE_KEY_INFO)));
    var docType :- AsString(Get(m, Text("docType")));
    var validityInfo :- ValidityInfoExt.From(lib, Get(m, Text(VALIDITY_INFO)));
    Success(MobileSecurityObjectExt(version, digestAlgorithm, valueDigests, deviceKeyInfo, docType, validityInfo))
  }

  /** `fromCbor`: the payload is cast to a byte string and parsed twice, first
      to the tag-24 content, then to the MSO map. */
  function FromCbor(lib: Library, payload: CborValue): (r: Result<MobileSecurityObjectExt, Failure>)
    ensures r.Success? <==>
      && payload.Bytes?
      && lib.decodeNext(payload.bytes).Some? && lib.decodeNext(payload.bytes).value.Bytes?
      && var inner := lib.decodeNext(payload.bytes).value.bytes;
         && lib.decodeNext(inner).Some? && lib.decodeNext(inner).value.MapV?
         && FromMap(lib, lib.decodeNext(inner).value.entries).Success?
    ensures r.Success? ==>
      r == FromMap(lib, lib.decodeNext(lib.decodeNext(payload.bytes).value.bytes).value.entries)
  {
    var bytes :- RequireBytes(payload);
    var first :- DecodeNext(lib, bytes);
    var inner :- RequireBytes(first);
    var second :- DecodeNext(lib, inner);
    var m :- RequireMap(second);
    FromMap(lib, m)
  }

  /** Round trip: an MSO map encoded as tag-24 wrapped data, as an issuer
      signs it, reads back as the MSO of that map's generic view. */
  lemma FromCborOfEncodedMap(lib: Library, m: Pairs)
    requires Lawful(lib)
    ensures FromCbor(lib, Bytes(EncodedCborData(lib, MapV(m)))) == FromMap(lib, Plain(MapV(m)).entries)
  {
    DecodeEncodedCborData(lib, MapV(m));
  }

  /** A null payload, or any payload that is not a byte string, fails the
      first cast. */
  lemma NonBytesPayloadRejected(lib: Library, payload: CborValue)
    requires !payload.Bytes?
    ensures FromCbor(lib, payload) == Failure(Malformed)
  {
  }
}
