/** DeviceResponse (section 8.3.2.1.2.2 of ISO/IEC 18013-5): the documents a
    holder returns, with a version and a status code. */
module DeviceResponseExt {
  import opened Wrappers
  import opened Failures
  import opened Cbor
  import COSESign1Ext
  import DocumentExt
  import opened Sequences

  /** status is a Java int: it is 0 when the one-argument constructor built
      the response. */
  datatype DeviceResponseExt = DeviceResponseExt(
    version: Option<string>,
    documents: seq<DocumentExt.DocumentExt>,
    errors: Option<seq<CborValue>>,
    status: int)
  {
    /** `getDocument`: the document at index; any other index throws. */
    function GetDocument(index: int): (r: Result<DocumentExt.DocumentExt, Failure>)
      ensures r.Success? <==> 0 <= index < |documents|
      ensures r.Success? ==> r.value == documents[index]
      ensures r.Failure? ==> r.error == IndexOutOfRange
    {
      if 0 <= index < |documents| then Success(documents[index]) else Failure(IndexOutOfRange)
    }
  }

  /** The one-argument constructor: only the documents are set. */
  function WithDocumentsOnly(documents: seq<DocumentExt.DocumentExt>): (r: DeviceResponseExt)
    ensures r.documents == documents
    ensures r.version.None? && r.errors.None? && r.status == 0
  {
    DeviceResponseExt(None, documents, None, 0)
  }

  /** Every envelope of the documents. */
  function Envelopes(documents: seq<DocumentExt.DocumentExt>): set<COSESign1Ext.COSESign1Ext> {
    if documents == [] then {}
    else Envelopes(documents[..|documents| - 1]) + documents[|documents| - 1].Envelopes()
  }

  lemma EnvelopesAppend(documents: seq<DocumentExt.DocumentExt>, d: DocumentExt.DocumentExt)
    ensures Envelopes(documents + [d]) == Envelopes(documents) + ({d.issuerSigned.issuerAuth} + d.DeviceEnvelopes())
  {
    assert (documents + [d])[..|documents|] == documents;
  }

  /** No envelope of the documents has had its payload replaced since it was
      built: each still shows what it was decoded with. */
  ghost predicate Unrewritten(documents: seq<DocumentExt.DocumentExt>)
    reads Envelopes(documents)
  {
    forall e | e in Envelopes(documents) :: e.payload == e.receivedPayload
  }

  lemma {:induction false} EnvelopesAllocated(documents: seq<DocumentExt.DocumentExt>)
    requires allocated(documents)
    ensures forall e | e in Envelopes(documents) :: allocated(e)
  {
    if documents != [] {
      EnvelopesAllocated(documents[..|documents| - 1]);
    }
  }

  lemma UnrewrittenAppend(documents: seq<DocumentExt.DocumentExt>, d: DocumentExt.DocumentExt)
    requires Unrewritten(documents)
    requires d.Unrewritten()
    ensures Unrewritten(documents + [d])
  {
    EnvelopesAppend(documents, d);
  }

  function DocumentWellFormed(lib: Library): CborValue -> bool {
    (item: CborValue) => DocumentExt.WellFormed(lib, item)
  }

  function DocumentContent(lib: Library): (CborValue, DocumentExt.DocumentValues) -> bool {
    (item: CborValue, v: DocumentExt.DocumentValues) => DocumentExt.Content(lib, item, v)
  }

  /** The values of each document, in order. */
  ghost function ValuesOf(documents: seq<DocumentExt.DocumentExt>): (r: seq<DocumentExt.DocumentValues>)
    ensures |r| == |documents|
    ensures forall k | 0 <= k < |r| :: r[k] == DocumentExt.ValuesOf(documents[k])
  {
    seq(|documents|, k requires 0 <= k < |documents| => DocumentExt.ValuesOf(documents[k]))
  }

  /** What `from` accepts: a map whose "documents" is a list of well-formed
      documents, whose "version" is a String or null and whose "status" is a
      non-null Integer. */
  predicate WellFormed(lib: Library, cbor: CborValue) {
    && cbor.MapV?
    && Get(cbor.entries, Text("documents")).Arr?
    && AllOf(DocumentWellFormed(lib), Get(cbor.entries, Text("documents")).items)
    && (Get(cbor.entries, Text("version")).Null? || Get(cbor.entries, Text("version")).Text?)
    && Get(cbor.entries, Text("status")).Int? && IsJavaInteger(Get(cbor.entries, Text("status")).i)
  }

  ghost predicate Represents(lib: Library, cbor: CborValue, r: DeviceResponseExt)
    reads Envelopes(r.documents)
  {
    && WellFormed(lib, cbor)
    && AllPairs(DocumentContent(lib), Get(cbor.entries, Text("documents")).items, ValuesOf(r.documents))
    && TextOrNull(r.version) == Get(cbor.entries, Text("version"))
    && Int(r.status) == Get(cbor.entries, Text("status"))
    && r.errors.None?
  }

  /** The i-th document of a mapped response is the i-th element of
      "documents", read by `Document.from`. */
  lemma RepresentsDocument(lib: Library, cbor: CborValue, r: DeviceResponseExt, i: int)
    requires Represents(lib, cbor, r)
    requires 0 <= i < |r.documents|
    ensures |Get(cbor.entries, Text("documents")).items| == |r.documents|
    ensures DocumentExt.Content(lib, Get(cbor.entries, Text("documents")).items[i], DocumentExt.ValuesOf(r.documents[i]))
  {
    var items := Get(cbor.entries, Text("documents")).items;
    AllPairsEach(DocumentContent(lib), items, ValuesOf(r.documents), i);
  }

  /** `Document.from` on one element, its result restated through the
      pure `Content`. wf and content stand for `DocumentExt.WellFormed` and
      `DocumentExt.Content`, so that the stream below is proved without
      unfolding a document. */
  method DocumentFrom(lib: Library, item: CborValue, ghost wf: CborValue -> bool,
                      ghost content: (CborValue, DocumentExt.DocumentValues) -> bool)
    returns (r: Result<DocumentExt.DocumentExt, Failure>)
    requires forall x {:trigger DocumentExt.WellFormed(lib, x)} :: DocumentExt.WellFormed(lib, x) == wf(x)
    requires forall x, v {:trigger DocumentExt.Content(lib, x, v)} :: DocumentExt.Content(lib, x, v) ==> content(x, v)
    ensures r.Success? <==> wf(item)
    ensures r.Success? ==>
      && fresh(r.value.issuerSigned.issuerAuth) && fresh(r.value.DeviceEnvelopes())
      && r.value.Valid()
      && r.value.Unrewritten()
      && content(item, DocumentExt.ValuesOf(r.value))
  {
    r := DocumentExt.From(lib, item);
    if r.Success? {
      DocumentExt.RepresentsContent(lib, item, r.value);
      DocumentExt.RepresentsUnrewritten(lib, item, r.value);
    }
  }

  /** One step of the stream: the element after the documents built so
      far. On success the prefix facts extend by the new document. */
  method NextDocument(lib: Library, items: seq<CborValue>, docs: seq<DocumentExt.DocumentExt>,
                      ghost wf: CborValue -> bool, ghost content: (CborValue, DocumentExt.DocumentValues) -> bool)
    returns (r: Result<DocumentExt.DocumentExt, Failure>)
    requires forall x {:trigger DocumentExt.WellFormed(lib, x)} :: DocumentExt.WellFormed(lib, x) == wf(x)
    requires forall x, v {:trigger DocumentExt.Content(lib, x, v)} :: DocumentExt.Content(lib, x, v) ==> content(x, v)
    requires |docs| < |items|
    requires AllOf(wf, items[..|docs|]) && AllPairs(content, items[..|docs|], ValuesOf(docs))
    requires Unrewritten(docs)
    ensures r.Failure? ==> !AllOf(wf, items)
    ensures r.Success? ==>
      && fresh(r.value.Envelopes())
      && Unrewritten(docs + [r.value])
      && Envelopes(docs + [r.value]) == Envelopes(docs) + r.value.Envelopes()
      && AllOf(wf, items[..|docs| + 1])
      && AllPairs(content, items[..|docs| + 1], ValuesOf(docs + [r.value]))
  {
    var i := |docs|;
    AllOfStep(wf, items, i);
    EnvelopesAllocated(docs);
    r := DocumentFrom(lib, items[i], wf, content);
    if r.Failure? {
      AllOfPrefix(wf, items, i + 1);
      return;
    }
    AllPairsStep(content, items, ValuesOf(docs), DocumentExt.ValuesOf(r.value));
    assert ValuesOf(docs + [r.value]) == ValuesOf(docs) + [DocumentExt.ValuesOf(r.value)];
    UnrewrittenAppend(docs, r.value);
  }

  /** The stream of `from(Map)`: one fresh document per element, in order;
      the first element that is not a document throws. */
  method DocumentsFrom(lib: Library, items: seq<CborValue>, ghost wf: CborValue -> bool,
                       ghost content: (CborValue, DocumentExt.DocumentValues) -> bool)
    returns (r: Result<seq<DocumentExt.DocumentExt>, Failure>)
    requires forall x {:trigger DocumentExt.WellFormed(lib, x)} :: DocumentExt.WellFormed(lib, x) == wf(x)
    requires forall x, v {:trigger DocumentExt.Content(lib, x, v)} :: DocumentExt.Content(lib, x, v) ==> content(x, v)
    ensures r.Success? <==> AllOf(wf, items)
    ensures r.Success? ==>
      && fresh(Envelopes(r.value))
      && Unrewritten(r.value)
      && AllPairs(content, items, ValuesOf(r.value))
  {
    var docs: seq<DocumentExt.DocumentExt> := [];
    while |docs| < |items|
      invariant |docs| <= |items|
      invariant AllOf(wf, items[..|docs|])
      invariant AllPairs(content, items[..|docs|], ValuesOf(docs))
      invariant fresh(Envelopes(docs))
      invariant Unrewritten(docs)
    {
      var d := NextDocument(lib, items, docs, wf, content);
      if d.Failure? {
        return Failure(d.error);
      }
      docs := docs + [d.value];
    }
    assert items[..|docs|] == items;
    r := Success(docs);
  }

  /** `from(Map)`: one document per element of "documents", in order, then
      version and status cast; errors always null. */
  method From(lib: Library, cbor: CborValue) returns (r: Result<DeviceResponseExt, Failure>)
    ensures r.Success? <==> WellFormed(lib, cbor)
    ensures r.Success? ==>
      && fresh(Envelopes(r.value.documents))
      && Unrewritten(r.value.documents)
      && Represents(lib, cbor, r.value)
  {
    if !cbor.MapV? {
      return Failure(Malformed);
    }
    var version := Get(cbor.entries, Text("version"));
    var status := Get(cbor.entries, Text("status"));
    var documents := Get(cbor.entries, Text("documents"));
    if !documents.Arr? {
      return Failure(Malformed);
    }
    var docs := DocumentsFrom(lib, documents.items, DocumentWellFormed(lib), DocumentContent(lib));
    if docs.Failure? {
      return Failure(docs.error);
    }
    if !(version.Null? || version.Text?) || !(status.Int? && IsJavaInteger(status.i)) {
      return Failure(Malformed);
    }
    r := Success(DeviceResponseExt(if version.Null? then None else Some(version.s), docs.value, None, status.i));
  }

  /** `from(byte[])`: every top-level item is parsed, and the first one is
      mapped; no item at all throws. */
  method FromBytes(lib: Library, bytes: ByteString) returns (r: Result<DeviceResponseExt, Failure>)
    ensures r.Success? <==>
      lib.decodeAll(bytes).Some? && |lib.decodeAll(bytes).value| > 0 && WellFormed(lib, lib.decodeAll(bytes).value[0])
    ensures r.Success? ==>
      && fresh(Envelopes(r.value.documents))
      && Unrewritten(r.value.documents)
      && Represents(lib, lib.decodeAll(bytes).value[0], r.value)
  {
    var list := lib.decodeAll(bytes);
    if list.None? || |list.value| == 0 {
      return Failure(Malformed);
    }
    r := From(lib, list.value[0]);
  }
}
