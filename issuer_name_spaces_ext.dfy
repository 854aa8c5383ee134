/** IssuerNameSpaces (section 8.3.2.1.2.2 of ISO/IEC 18013-5): per name
    space, the issuer-signed items, each carried as its own encoded CBOR
    map that the mapper parses again. */
module IssuerNameSpacesExt {
  import opened Wrappers
  import opened Failures
  import opened Cbor
  import opened Sequences

  /** digestID is a Java int: a null digestID cannot be unboxed. */
  datatype IssuerSignedItem = IssuerSignedItem(
    digestID: int,
    random: Option<ByteString>,
    elementIdentifier: Option<string>,
    elementValue: CborValue)

  datatype IssuerSignedItemBytes = IssuerSignedItemBytes(item: IssuerSignedItem)

  datatype IssuerNameSpacesEntry = IssuerNameSpacesEntry(nameSpace: Option<string>, items: seq<IssuerSignedItemBytes>)

  datatype IssuerNameSpacesExt = IssuerNameSpacesExt(entries: seq<IssuerNameSpacesEntry>)

  /** The four fields of an item, as found in its parsed map m. */
  predicate ItemFields(item: IssuerSignedItem, m: Pairs) {
    && Int(item.digestID) == Get(m, Text("digestID"))
    && BytesOrNull(item.random) == Get(m, Text("random"))
    && TextOrNull(item.elementIdentifier) == Get(m, Text("elementIdentifier"))
    && item.elementValue == Get(m, Text("elementValue"))
  }

  /** What the inner loop body accepts: a byte string that parses to a map
      with an Integer digestID, a byte[] or null random and a String or null
      elementIdentifier. */
  predicate IsItem(lib: Library, value: CborValue) {
    && value.Bytes?
    && lib.decodeNext(value.bytes).Some?
    && lib.decodeNext(value.bytes).value.MapV?
    && var m := lib.decodeNext(value.bytes).value.entries;
       && Get(m, Text("digestID")).Int? && IsJavaInteger(Get(m, Text("digestID")).i)
       && (Get(m, Text("random")).Null? || Get(m, Text("random")).Bytes?)
       && (Get(m, Text("elementIdentifier")).Null? || Get(m, Text("elementIdentifier")).Text?)
  }

  /** One item: parse the byte string, cast the result to a map and read the
      four fields. */
  function ItemOf(lib: Library, value: CborValue): (r: Result<IssuerSignedItemBytes, Failure>)
    ensures r.Success? <==> IsItem(lib, value)
    ensures r.Success? ==> ItemFields(r.value.item, lib.decodeNext(value.bytes).value.entries)
    ensures r.Failure? ==> r.error == Malformed
  {
    var bytes :- RequireBytes(value);
    var next :- DecodeNext(lib, bytes);
    var m :- RequireMap(next);
    var digestID :- AsInteger(Get(m, Text("digestID")));
    if digestID.None? then Failure(Malformed)
    else
      var random :- AsByteArray(Get(m, Text("random")));
      var elementIdentifier :- AsString(Get(m, Text("elementIdentifier")));
      Success(IssuerSignedItemBytes(IssuerSignedItem(digestID.value, random, elementIdentifier, Get(m, Text("elementValue")))))
  }

  function ItemIn(lib: Library): CborValue -> Result<IssuerSignedItemBytes, Failure> {
    (value: CborValue) => ItemOf(lib, value)
  }

  /** One name space: its list of encoded items converted in order, then its
      name cast to String. */
  function NameSpaceEntry(lib: Library, entry: (CborValue, CborValue)): (r: Result<IssuerNameSpacesEntry, Failure>)
    ensures r.Success? <==>
      && entry.1.Arr?
      && (forall j | 0 <= j < |entry.1.items| :: IsItem(lib, entry.1.items[j]))
      && (entry.0.Null? || entry.0.Text?)
    ensures r.Success? ==>
      && TextOrNull(r.value.nameSpace) == entry.0
      && |r.value.items| == |entry.1.items|
      && forall j | 0 <= j < |entry.1.items| :: ItemOf(lib, entry.1.items[j]) == Success(r.value.items[j])
    ensures r.Failure? ==> r.error == Malformed
  {
    var values :- RequireList(entry.1);
    var items := MapAll(ItemIn(lib), values);
    MapAllShape(ItemIn(lib), values);
    if items.Failure? then
      Failure(Malformed)
    else
      var nameSpace :- AsString(entry.0);
      Success(IssuerNameSpacesEntry(nameSpace, items.value))
  }

  function NameSpaceEntryIn(lib: Library): ((CborValue, CborValue)) -> Result<IssuerNameSpacesEntry, Failure> {
    (entry: (CborValue, CborValue)) => NameSpaceEntry(lib, entry)
  }

  /** What `from` builds out of the decoded nameSpaces map. */
  function NameSpacesOf(lib: Library, nameSpaces: CborValue): (r: Result<IssuerNameSpacesExt, Failure>) {
    var entries :- RequireMap(nameSpaces);
    var result :- MapAll(NameSpaceEntryIn(lib), entries);
    Success(IssuerNameSpacesExt(result))
  }

  /** The inner loop of `from`: one item per encoded byte string, in order;
      the first that fails to parse aborts. */
  method ItemsFrom(lib: Library, values: seq<CborValue>) returns (r: Result<seq<IssuerSignedItemBytes>, Failure>)
    ensures r == MapAll(ItemIn(lib), values)
  {
    var vals: seq<IssuerSignedItemBytes> := [];
    var j := 0;
    while j < |values|
      invariant 0 <= j <= |values|
      invariant MapAll(ItemIn(lib), values[..j]) == Success(vals)
    {
      MapAllStep(ItemIn(lib), values, j);
      var item := ItemOf(lib, values[j]);
      if item.Failure? {
        MapAllShape(ItemIn(lib), values);
        return Failure(Malformed);
      }
      vals := vals + [item.value];
      j := j + 1;
    }
    assert values[..j] == values;
    r := Success(vals);
  }

  /** The outer loop's body: the name space's value cast to a list, its
      inner loop, then its name cast to String. */
  method NameSpaceEntryFrom(lib: Library, entry: (CborValue, CborValue)) returns (r: Result<IssuerNameSpacesEntry, Failure>)
    ensures r == NameSpaceEntry(lib, entry)
  {
    var (key, value) := entry;
    if !value.Arr? {
      return Failure(Malformed);
    }
    var vals := ItemsFrom(lib, value.items);
    if vals.Failure? || !(key.Null? || key.Text?) {
      return Failure(Malformed);
    }
    r := Success(IssuerNameSpacesEntry(if key.Null? then None else Some(key.s), vals.value));
  }

  /** `from`: the outer loop appends one entry per name space. */
  method From(lib: Library, nameSpaces: CborValue) returns (r: Result<IssuerNameSpacesExt, Failure>)
    ensures r == NameSpacesOf(lib, nameSpaces)
  {
    if !nameSpaces.MapV? {
      return Failure(Malformed);
    }
    var entries := nameSpaces.entries;
    var result: seq<IssuerNameSpacesEntry> := [];
    var i := 0;
    while i < |entries|
      invariant 0 <= i <= |entries|
      invariant MapAll(NameSpaceEntryIn(lib), entries[..i]) == Success(result)
    {
      MapAllStep(NameSpaceEntryIn(lib), entries, i);
      var entry := NameSpaceEntryFrom(lib, entries[i]);
      if entry.Failure? {
        MapAllShape(NameSpaceEntryIn(lib), entries);
        return Failure(Malformed);
      }
      result := result + [entry.value];
      i := i + 1;
    }
    assert entries[..i] == entries;
    r := Success(IssuerNameSpacesExt(result));
  }

  /** One entry per name space keeping its name; each item list as long as,
      and in the order of, its byte strings; each item's fields those of its
      own parsed map. */
  lemma NameSpacesOfShape(lib: Library, nameSpaces: CborValue)
    requires NameSpacesOf(lib, nameSpaces).Success?
    ensures nameSpaces.MapV?
    ensures var entries := NameSpacesOf(lib, nameSpaces).value.entries;
      && |entries| == |nameSpaces.entries|
      && forall i | 0 <= i < |entries| ::
           nameSpaces.entries[i].1.Arr? &&
           var values := nameSpaces.entries[i].1.items;
           && TextOrNull(entries[i].nameSpace) == nameSpaces.entries[i].0
           && |entries[i].items| == |values|
           && forall j | 0 <= j < |values| ::
                values[j].Bytes? && lib.decodeNext(values[j].bytes).Some? && lib.decodeNext(values[j].bytes).value.MapV? &&
                ItemFields(entries[i].items[j].item, lib.decodeNext(values[j].bytes).value.entries)
  {
    var entries := nameSpaces.entries;
    MapAllShape(NameSpaceEntryIn(lib), entries);
    forall i | 0 <= i < |entries|
      ensures entries[i].1.Arr? && var values := entries[i].1.items;
        && |NameSpaceEntry(lib, entries[i]).value.items| == |values|
        && forall j | 0 <= j < |values| ::
             values[j].Bytes? && lib.decodeNext(values[j].bytes).Some? && lib.decodeNext(values[j].bytes).value.MapV? &&
             ItemFields(NameSpaceEntry(lib, entries[i]).value.items[j].item, lib.decodeNext(values[j].bytes).value.entries)
    {
      MapAllShape(ItemIn(lib), entries[i].1.items);
    }
  }

  /** No partial result: the mapping completes exactly when every name is a
      String or null and every item of every name space parses. */
  lemma NameSpacesOfSucceeds(lib: Library, nameSpaces: CborValue)
    ensures NameSpacesOf(lib, nameSpaces).Success? <==>
      && nameSpaces.MapV?
      && forall i | 0 <= i < |nameSpaces.entries| ::
           && (nameSpaces.entries[i].0.Null? || nameSpaces.entries[i].0.Text?)
           && nameSpaces.entries[i].1.Arr?
           && forall j | 0 <= j < |nameSpaces.entries[i].1.items| :: IsItem(lib, nameSpaces.entries[i].1.items[j])
  {
    if nameSpaces.MapV? {
      var entries := nameSpaces.entries;
      MapAllShape(NameSpaceEntryIn(lib), entries);
      forall i | 0 <= i < |entries| && entries[i].1.Arr? {
        MapAllShape(ItemIn(lib), entries[i].1.items);
      }
    }
  }
}
