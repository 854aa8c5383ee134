/** The DeviceAuthentication structure (section 9.1.3.4 of ISO/IEC 18013-5):
    the bytes the device signed, recomputed by the verifier and never
    transmitted. */
module DeviceAuthentication {
  import opened Wrappers
  import opened Failures
  import opened Cbor
  import SessionTranscript

  const CONTEXT := "DeviceAuthentication"

  /** ["DeviceAuthentication", SessionTranscript, DocType, DeviceNameSpacesBytes] */
  function Structure(t: SessionTranscript.SessionTranscript, docType: CborValue, nameSpaces: CborValue): CborValue {
    Arr([Text(CONTEXT), t.AsCbor(), docType, nameSpaces])
  }

  /** The builder over a transcript and a document seen as its CBOR pair list. */
  datatype DeviceAuthentication = DeviceAuthentication(
    sessionTranscript: SessionTranscript.SessionTranscript,
    document: Pairs)
  {
    /** The document's "docType" value and its "deviceSigned" pair list's
        "nameSpaces" value, put in the structure, encoded, wrapped in tag 24
        and encoded again. A missing pair or a deviceSigned value that is not a
        pair list throws. */
    function Encode(lib: Library): (r: Result<ByteString, Failure>)
      ensures r.Success? <==>
        && HasKey(document, Text("docType"))
        && Get(document, Text("deviceSigned")).MapV?
        && HasKey(Get(document, Text("deviceSigned")).entries, Text("nameSpaces"))
      ensures r.Success? ==>
        r.value == EncodedCborData(lib, Structure(sessionTranscript,
                                                  Get(document, Text("docType")),
                                                  Get(Get(document, Text("deviceSigned")).entries, Text("nameSpaces"))))
    {
      GetIsFindByKey(document, Text("docType"));
      GetIsFindByKey(document, Text("deviceSigned"));
      match FindByKey(document, Text("docType"))
      case None => Failure(Malformed)
      case Some(docType) =>
        match FindByKey(document, Text("deviceSigned"))
        case None => Failure(Malformed)
        case Some(deviceSigned) =>
          if !deviceSigned.MapV? then Failure(Malformed)
          else
            GetIsFindByKey(deviceSigned.entries, Text("nameSpaces"));
            match FindByKey(deviceSigned.entries, Text("nameSpaces"))
            case None => Failure(Malformed)
            case Some(nameSpaces) =>
              var structure := Structure(sessionTranscript, docType, nameSpaces);
              Success(lib.encode(Tag(ENCODED_CBOR_DATA_TAG, Bytes(lib.encode(structure)))))
    }
  }

  /** What a verifier parsing the bytes finds: the tag-24 content first, and
      in it the four elements in order, the transcript as [null, null,
      handover]. */
  lemma DecodeEncoded(lib: Library, t: SessionTranscript.SessionTranscript, docType: CborValue, nameSpaces: CborValue)
    requires Lawful(lib)
    ensures var inner := lib.encode(Structure(t, docType, nameSpaces));
            && lib.decodeNext(EncodedCborData(lib, Structure(t, docType, nameSpaces))) == Some(Bytes(inner))
            && lib.decodeNext(inner) ==
                 Some(Arr([Text(CONTEXT), Arr([Null, Null, Plain(t.handOver)]), Plain(docType), Plain(nameSpaces)]))
  {
    var s := Structure(t, docType, nameSpaces);
    DecodeEncodedCborData(lib, s);
    var ti := t.AsCbor();
    assert Plain(ti) == Arr([Null, Null, Plain(t.handOver)]) by {
      assert Plain(ti).items == [Plain(Null), Plain(Null), Plain(t.handOver)];
    }
    assert Plain(s).items == [Plain(Text(CONTEXT)), Plain(ti), Plain(docType), Plain(nameSpaces)];
  }
}
