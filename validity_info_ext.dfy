/** ValidityInfo of the MSO (section 9.1.2.4 of ISO/IEC 18013-5): when the
    MSO was signed and the window in which it is valid. Instants are epoch
    seconds in UTC. */
module ValidityInfoExt {
  import opened Wrappers
  import opened Failures
  import opened Cbor

  datatype ValidityInfoExt = ValidityInfoExt(
    signed: Option<int>,
    validFrom: Option<int>,
    validUntil: Option<int>,
    expectedUpdate: Option<int>)

  /** The three-argument constructor: expectedUpdate is left unset. */
  function WithoutExpectedUpdate(signed: Option<int>, validFrom: Option<int>, validUntil: Option<int>): (r: ValidityInfoExt)
    ensures r.expectedUpdate.None?
    ensures r.signed == signed && r.validFrom == validFrom && r.validUntil == validUntil
  {
    ValidityInfoExt(signed, validFrom, validUntil, None)
  }

  /** v denotes the instant t: null denotes no instant, an ISO-8601 string
      the instant it parses to. */
  predicate Denotes(lib: Library, v: CborValue, t: Option<int>) {
    || (v.Null? && t.None?)
    || (v.Text? && t.Some? && lib.parseInstant(v.s) == t)
  }

  /** `asZonedDateTime`: null stays null, anything else is cast to String and
      parsed as an instant, which is kept as it is in the UTC zone. */
  function AsZonedDateTime(lib: Library, v: CborValue): (r: Result<Option<int>, Failure>)
    ensures r.Success? <==> v.Null? || (v.Text? && lib.parseInstant(v.s).Some?)
    ensures r.Success? ==> Denotes(lib, v, r.value)
  {
    if v.Null? then Success(None)
    else
      var s :- AsString(v);
      match lib.parseInstant(s.value)
      case None => Failure(Malformed)
      case Some(t) => Success(Some(t))
  }

  /** `from`: the four instants under "signed", "validFrom", "validUntil" and
      "expectedUpdate"; a missing one is null rather than an error. */
  function From(lib: Library, cbor: CborValue): (r: Result<ValidityInfoExt, Failure>)
    ensures r.Success? <==>
      && cbor.MapV?
      && AsZonedDateTime(lib, Get(cbor.entries, Text("signed"))).Success?
      && AsZonedDateTime(lib, Get(cbor.entries, Text("validFrom"))).Success?
      && AsZonedDateTime(lib, Get(cbor.entries, Text("validUntil"))).Success?
      && AsZonedDateTime(lib, Get(cbor.entries, Text("expectedUpdate"))).Success?
    ensures r.Success? ==>
      && Denotes(lib, Get(cbor.entries, Text("signed")), r.value.signed)
      && Denotes(lib, Get(cbor.entries, Text("validFrom")), r.value.validFrom)
      && Denotes(lib, Get(cbor.entries, Text("validUntil")), r.value.validUntil)
      && Denotes(lib, Get(cbor.entries, Text("expectedUpdate")), r.value.expectedUpdate)
  {
    var m :- RequireMap(cbor);
    var signed :- AsZonedDateTime(lib, Get(m, Text("signed")));
    var validFrom :- AsZonedDateTime(lib, Get(m, Text("validFrom")));
    var validUntil :- AsZonedDateTime(lib, Get(m, Text("validUntil")));
    var expectedUpdate :- AsZonedDateTime(lib, Get(m, Text("expectedUpdate")));
    Success(ValidityInfoExt(signed, validFrom, validUntil, expectedUpdate))
  }

  /** A value denotes at most one instant, so the result is fixed by the four
      entries `from` reads: any other entry of the map changes nothing. */
  lemma FromReadsOnlyItsFourKeys(lib: Library, m: Pairs, m': Pairs)
    requires Get(m, Text("signed")) == Get(m', Text("signed"))
    requires Get(m, Text("validFrom")) == Get(m', Text("validFrom"))
    requires Get(m, Text("validUntil")) == Get(m', Text("validUntil"))
    requires Get(m, Text("expectedUpdate")) == Get(m', Text("expectedUpdate"))
    ensures From(lib, MapV(m)) == From(lib, MapV(m'))
  {
  }

  /** A map without any of the four keys gives a validity info with every
      instant unset. */
  lemma AbsentKeysGiveNoInstants(lib: Library, m: Pairs)
    requires !HasKey(m, Text("signed")) && !HasKey(m, Text("validFrom"))
    requires !HasKey(m, Text("validUntil")) && !HasKey(m, Text("expectedUpdate"))
    ensures From(lib, MapV(m)) == Success(ValidityInfoExt(None, None, None, None))
  {
    GetIsFindByKey(m, Text("signed"));
    GetIsFindByKey(m, Text("validFrom"));
    GetIsFindByKey(m, Text("validUntil"));
    GetIsFindByKey(m, Text("expectedUpdate"));
  }
}
