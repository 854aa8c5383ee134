/** DeviceKeyInfo of the MSO (section 9.1.2.4 of ISO/IEC 18013-5): the
    device's public key as a COSE_Key whose integer labels the mapper keeps. */
module DeviceKeyInfoExt {
  import opened Wrappers
  import opened Failures
  import opened Cbor
  import opened Sequences

  /** A COSE EC2 key over its (label, value) pairs. */
  datatype COSEKey = COSEEC2Key(pairs: Pairs)

  datatype DeviceKeyInfoExt = DeviceKeyInfoExt(
    deviceKey: COSEKey,
    keyAuthorizations: Option<CborValue>,
    keyInfo: Option<CborValue>)

  predicate IsJavaIntegerItem(v: CborValue) { v.Int? && IsJavaInteger(v.i) }

  /** One deviceKey entry as a key pair: an Integer value stays an integer,
      any other value is cast to byte[] (null passing as null), and the label
      must be an Integer. */
  function KeyPair(entry: (CborValue, CborValue)): (r: Result<(CborValue, CborValue), Failure>)
    ensures r.Success? <==>
      IsJavaIntegerItem(entry.0) && (IsJavaIntegerItem(entry.1) || entry.1.Bytes? || entry.1.Null?)
    ensures r.Success? ==> r.value == entry
    ensures r.Failure? ==> r.error == Malformed
  {
    var item :-
      if IsJavaIntegerItem(entry.1) then Success(Int(entry.1.i))
      else
        var bytes :- AsByteArray(entry.1);
        Success(BytesOrNull(bytes));
    if IsJavaIntegerItem(entry.0) then Success((Int(entry.0.i), item)) else Failure(Malformed)
  }

  /** What `from` builds: an EC2 key over the converted "deviceKey" entries,
      with no key authorizations and no key info. */
  function KeyInfoOf(cbor: CborValue): (r: Result<DeviceKeyInfoExt, Failure>)
    ensures r.Success? ==> r.value.keyAuthorizations.None? && r.value.keyInfo.None?
  {
    var fields :- RequireMap(cbor);
    var deviceKey :- RequireMap(Get(fields, Text("deviceKey")));
    var pairs :- MapAll(KeyPair, deviceKey);
    Success(DeviceKeyInfoExt(COSEEC2Key(pairs), None, None))
  }

  /** `from`: one pair per deviceKey entry, in iteration order. */
  method From(cbor: CborValue) returns (r: Result<DeviceKeyInfoExt, Failure>)
    ensures r == KeyInfoOf(cbor)
  {
    if !cbor.MapV? {
      return Failure(Malformed);
    }
    var deviceKey := Get(cbor.entries, Text("deviceKey"));
    if !deviceKey.MapV? {
      return Failure(Malformed);
    }
    var entries := deviceKey.entries;
    var pairs: Pairs := [];
    var i := 0;
    while i < |entries|
      invariant 0 <= i <= |entries|
      invariant MapAll(KeyPair, entries[..i]) == Success(pairs)
    {
      MapAllStep(KeyPair, entries, i);
      var (key, value) := entries[i];
      var item: CborValue;
      if value.Int? && IsJavaInteger(value.i) {
        item := Int(value.i);
      } else if value.Bytes? || value.Null? {
        item := value;
      } else {
        MapAllShape(KeyPair, entries);
        return Failure(Malformed);
      }
      if !(key.Int? && IsJavaInteger(key.i)) {
        MapAllShape(KeyPair, entries);
        return Failure(Malformed);
      }
      pairs := pairs + [(Int(key.i), item)];
      i := i + 1;
    }
    assert entries[..i] == entries;
    r := Success(DeviceKeyInfoExt(COSEEC2Key(pairs), None, None));
  }

  /** The key is made of exactly the deviceKey entries, in order: nothing is
      lost, added or reordered. */
  lemma KeyPairsAreDeviceKeyEntries(cbor: CborValue)
    requires KeyInfoOf(cbor).Success?
    ensures KeyInfoOf(cbor).value.deviceKey.pairs == Get(cbor.entries, Text("deviceKey")).entries
  {
    var entries := Get(cbor.entries, Text("deviceKey")).entries;
    MapAllShape(KeyPair, entries);
  }

  /** `from` succeeds exactly when the input is a map whose deviceKey is a map
      with Integer labels and Integer, byte-string or null values. */
  lemma {:induction false} KeyInfoOfSucceeds(cbor: CborValue)
    ensures KeyInfoOf(cbor).Success? <==>
      && cbor.MapV?
      && Get(cbor.entries, Text("deviceKey")).MapV?
      && var entries := Get(cbor.entries, Text("deviceKey")).entries;
         forall i | 0 <= i < |entries| ::
           IsJavaIntegerItem(entries[i].0) && (IsJavaIntegerItem(entries[i].1) || entries[i].1.Bytes? || entries[i].1.Null?)
  {
    if cbor.MapV? && Get(cbor.entries, Text("deviceKey")).MapV? {
      MapAllShape(KeyPair, Get(cbor.entries, Text("deviceKey")).entries);
    }
  }

  /** Only the "deviceKey" entry of the input is consulted. */
  lemma OnlyDeviceKeyConsulted(fields: Pairs, fields': Pairs)
    requires Get(fields, Text("deviceKey")) == Get(fields', Text("deviceKey"))
    ensures KeyInfoOf(MapV(fields)) == KeyInfoOf(MapV(fields'))
  {
  }
}
