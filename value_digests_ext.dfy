/** ValueDigests of the MSO (section 9.1.2.4 of ISO/IEC 18013-5): per name
    space, the digest of every issuer-signed item, keyed by its digest ID. */
module ValueDigestsExt {
  import opened Wrappers
  import opened Failures
  import opened Cbor
  import opened Sequences

  datatype DigestIDsEntry = DigestIDsEntry(digestID: int, digest: Option<ByteString>)

  datatype ValueDigestsEntry = ValueDigestsEntry(nameSpace: Option<string>, digestIDs: seq<DigestIDsEntry>)

  datatype ValueDigestsExt = ValueDigestsExt(entries: seq<ValueDigestsEntry>)

  /** `new DigestIDsEntry(id, values.get(id))`: the id must be a non-null
      Integer, the digest a byte[] or null. */
  function DigestEntry(values: Pairs, id: CborValue): (r: Result<DigestIDsEntry, Failure>)
    ensures r.Success? <==> IsJavaIntegerKey(id) && (Get(values, id).Null? || Get(values, id).Bytes?)
    ensures r.Success? ==> id == Int(r.value.digestID) && BytesOrNull(r.value.digest) == Get(values, id)
    ensures r.Failure? ==> r.error == Malformed
  {
    var id :- AsInteger(id);
    if id.None? then Failure(Malformed)
    else
      var digest :- AsByteArray(Get(values, Int(id.value)));
      Success(DigestIDsEntry(id.value, digest))
  }

  predicate IsJavaIntegerKey(v: CborValue) { v.Int? && IsJavaInteger(v.i) }

  /** The inner loop's step, for the key of one entry of `values`. */
  function DigestEntryIn(values: Pairs): ((CborValue, CborValue)) -> Result<DigestIDsEntry, Failure> {
    (entry: (CborValue, CborValue)) => DigestEntry(values, entry.0)
  }

  /** One name space: its digest-ID map converted entry by entry, then its
      name cast to String. */
  function NameSpaceEntry(entry: (CborValue, CborValue)): (r: Result<ValueDigestsEntry, Failure>)
    ensures r.Success? <==>
      && entry.1.MapV?
      && (forall j | 0 <= j < |entry.1.entries| ::
            var id := entry.1.entries[j].0;
            IsJavaIntegerKey(id) && (Get(entry.1.entries, id).Null? || Get(entry.1.entries, id).Bytes?))
      && (entry.0.Null? || entry.0.Text?)
    ensures r.Success? ==>
      && TextOrNull(r.value.nameSpace) == entry.0
      && |r.value.digestIDs| == |entry.1.entries|
      && forall j | 0 <= j < |entry.1.entries| ::
           DigestEntry(entry.1.entries, entry.1.entries[j].0) == Success(r.value.digestIDs[j])
    ensures r.Failure? ==> r.error == Malformed
  {
    var values :- RequireMap(entry.1);
    var digestIDs := MapAll(DigestEntryIn(values), values);
    MapAllShape(DigestEntryIn(values), values);
    if digestIDs.Failure? then
      Failure(Malformed)
    else
      var nameSpace :- AsString(entry.0);
      Success(ValueDigestsEntry(nameSpace, digestIDs.value))
  }

  /** What `from` builds out of the decoded valueDigests map. */
  function DigestsOf(cbor: CborValue): (r: Result<ValueDigestsExt, Failure>) {
    var nameSpaces :- RequireMap(cbor);
    var entries :- MapAll(NameSpaceEntry, nameSpaces);
    Success(ValueDigestsExt(entries))
  }

  /** The inner loop of `from`: one entry per key of one name space's map,
      in iteration order. */
  method DigestIDsFrom(values: Pairs) returns (r: Result<seq<DigestIDsEntry>, Failure>)
    ensures r == MapAll(DigestEntryIn(values), values)
  {
    var digestIDs: seq<DigestIDsEntry> := [];
    var j := 0;
    while j < |values|
      invariant 0 <= j <= |values|
      invariant MapAll(DigestEntryIn(values), values[..j]) == Success(digestIDs)
    {
      MapAllStep(DigestEntryIn(values), values, j);
      var id := values[j].0;
      var digest := Get(values, id);
      if !(id.Int? && IsJavaInteger(id.i) && (digest.Null? || digest.Bytes?)) {
        MapAllShape(DigestEntryIn(values), values);
        return Failure(Malformed);
      }
      digestIDs := digestIDs + [DigestIDsEntry(id.i, if digest.Null? then None else Some(digest.bytes))];
      j := j + 1;
    }
    assert values[..j] == values;
    r := Success(digestIDs);
  }

  /** The outer loop's body: the name space's value cast to a map, its inner
      loop, then its name cast to String. */
  method NameSpaceEntryFrom(entry: (CborValue, CborValue)) returns (r: Result<ValueDigestsEntry, Failure>)
    ensures r == NameSpaceEntry(entry)
  {
    var (key, value) := entry;
    if !value.MapV? {
      return Failure(Malformed);
    }
    var digestIDs := DigestIDsFrom(value.entries);
    if digestIDs.Failure? || !(key.Null? || key.Text?) {
      return Failure(Malformed);
    }
    r := Success(ValueDigestsEntry(if key.Null? then None else Some(key.s), digestIDs.value));
  }

  /** `from`: the outer loop walks the name spaces, appending one entry for
      each. */
  method From(cbor: CborValue) returns (r: Result<ValueDigestsExt, Failure>)
    ensures r == DigestsOf(cbor)
  {
    if !cbor.MapV? {
      return Failure(Malformed);
    }
    var nameSpaces := cbor.entries;
    var entries: seq<ValueDigestsEntry> := [];
    var i := 0;
    while i < |nameSpaces|
      invariant 0 <= i <= |nameSpaces|
      invariant MapAll(NameSpaceEntry, nameSpaces[..i]) == Success(entries)
    {
      MapAllStep(NameSpaceEntry, nameSpaces, i);
      var entry := NameSpaceEntryFrom(nameSpaces[i]);
      if entry.Failure? {
        MapAllShape(NameSpaceEntry, nameSpaces);
        return Failure(Malformed);
      }
      entries := entries + [entry.value];
      i := i + 1;
    }
    assert nameSpaces[..i] == nameSpaces;
    r := Success(ValueDigestsExt(entries));
  }

  /** Nothing lost, nothing reordered: one entry per name space carrying its
      name, and within it one entry per digest ID carrying the ID and what
      `get` returns for it. */
  lemma DigestsOfShape(cbor: CborValue)
    requires DigestsOf(cbor).Success?
    ensures cbor.MapV?
    ensures var entries := DigestsOf(cbor).value.entries;
      && |entries| == |cbor.entries|
      && forall i | 0 <= i < |entries| ::
           cbor.entries[i].1.MapV? &&
           var values := cbor.entries[i].1.entries;
           && TextOrNull(entries[i].nameSpace) == cbor.entries[i].0
           && |entries[i].digestIDs| == |values|
           && forall j | 0 <= j < |values| ::
                && Int(entries[i].digestIDs[j].digestID) == values[j].0
                && BytesOrNull(entries[i].digestIDs[j].digest) == Get(values, values[j].0)
  {
    var nameSpaces := cbor.entries;
    MapAllShape(NameSpaceEntry, nameSpaces);
    forall i | 0 <= i < |nameSpaces|
      ensures nameSpaces[i].1.MapV? && var values := nameSpaces[i].1.entries;
        && |NameSpaceEntry(nameSpaces[i]).value.digestIDs| == |values|
        && forall j | 0 <= j < |values| ::
             && Int(NameSpaceEntry(nameSpaces[i]).value.digestIDs[j].digestID) == values[j].0
             && BytesOrNull(NameSpaceEntry(nameSpaces[i]).value.digestIDs[j].digest) == Get(values, values[j].0)
    {
      MapAllShape(DigestEntryIn(nameSpaces[i].1.entries), nameSpaces[i].1.entries);
    }
  }

  /** In a decoded map, where no digest ID repeats, each digest is exactly the
      value stored under its ID. */
  lemma DigestIsStoredValue(cbor: CborValue, i: nat, j: nat)
    requires DigestsOf(cbor).Success?
    requires cbor.MapV? && i < |cbor.entries| && cbor.entries[i].1.MapV?
    requires DistinctKeys(cbor.entries[i].1.entries)
    requires j < |cbor.entries[i].1.entries|
    ensures var values := cbor.entries[i].1.entries;
      i < |DigestsOf(cbor).value.entries| &&
      j < |DigestsOf(cbor).value.entries[i].digestIDs| &&
      BytesOrNull(DigestsOf(cbor).value.entries[i].digestIDs[j].digest) == values[j].1
  {
    DigestsOfShape(cbor);
    GetDistinct(cbor.entries[i].1.entries, j);
  }

  /** `from` completes exactly when every name space maps Integer IDs to
      byte strings or null, and every name is a String or null. */
  lemma DigestsOfSucceeds(cbor: CborValue)
    ensures DigestsOf(cbor).Success? <==>
      && cbor.MapV?
      && forall i | 0 <= i < |cbor.entries| ::
           && (cbor.entries[i].0.Null? || cbor.entries[i].0.Text?)
           && cbor.entries[i].1.MapV?
           && var values := cbor.entries[i].1.entries;
              forall j | 0 <= j < |values| ::
                IsJavaIntegerKey(values[j].0) && (Get(values, values[j].0).Null? || Get(values, values[j].0).Bytes?)
  {
    if cbor.MapV? {
      var nameSpaces := cbor.entries;
      MapAllShape(NameSpaceEntry, nameSpaces);
      forall i | 0 <= i < |nameSpaces| && nameSpaces[i].1.MapV? {
        MapAllShape(DigestEntryIn(nameSpaces[i].1.entries), nameSpaces[i].1.entries);
      }
    }
  }

  /** Number of digest entries over all name spaces. */
  function DigestCount(entries: seq<ValueDigestsEntry>): nat {
    if entries == [] then 0 else DigestCount(entries[..|entries| - 1]) + |entries[|entries| - 1].digestIDs|
  }

  /** Number of (name space, digest ID) pairs of the input. */
  function PairCount(nameSpaces: Pairs): nat {
    if nameSpaces == [] then 0
    else
      var last := nameSpaces[|nameSpaces| - 1].1;
      PairCount(nameSpaces[..|nameSpaces| - 1]) + if last.MapV? then |last.entries| else 0
  }

  lemma {:induction false} CountsAgree(entries: seq<ValueDigestsEntry>, nameSpaces: Pairs)
    requires |entries| == |nameSpaces|
    requires forall i | 0 <= i < |entries| ::
      nameSpaces[i].1.MapV? && |entries[i].digestIDs| == |nameSpaces[i].1.entries|
    ensures DigestCount(entries) == PairCount(nameSpaces)
  {
    if entries != [] {
      CountsAgree(entries[..|entries| - 1], nameSpaces[..|nameSpaces| - 1]);
    }
  }

  /** As many digests come out as (name space, digest ID) pairs went in. */
  lemma TotalCountPreserved(cbor: CborValue)
    requires DigestsOf(cbor).Success?
    ensures DigestCount(DigestsOf(cbor).value.entries) == PairCount(cbor.entries)
  {
    DigestsOfShape(cbor);
    MapAllShape(NameSpaceEntry, cbor.entries);
    CountsAgree(DigestsOf(cbor).value.entries, cbor.entries);
  }
}
