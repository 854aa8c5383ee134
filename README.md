# mdoc model of the cbor-wrapper verifier

A Dafny model of the `dk.gov.dktb.mdoc.model` package. This package turns a
generic decoded CBOR tree into the typed entities of an ISO/IEC 18013-5 mdoc:

- DeviceResponse, Document, IssuerSigned, DeviceSigned and the Mobile
  Security Object (MSO);
- the MSO's parts: ValueDigests, DeviceKeyInfo and ValidityInfo;
- the issuer name spaces;
- the COSE_Sign1 envelopes.

The package also rebuilds the verifier's side of the protocol:

- the session transcripts: the OID4VP one, and the signed-QR one;
- the DeviceAuthentication bytes the device signed;
- the issuer and device signature checks;
- the signed-QR payload: a Base64URL QR string holding a nonce, a validity
  window and a document. Its checks are the lifetime gate, the clock-skew
  gate and the device signature.

## How the model is built

- **CBOR values.** `Cbor.CborValue` is a generic CBOR value. A decoded map
  is a sequence of pairs in iteration order. A `java.util.Map` holds each key
  once, but the model does not require that of its input: `Cbor.Get` returns
  the first pair with the key, or `Null` when no pair has it. On a map whose
  keys are distinct (`Cbor.DistinctKeys`) this is exactly `Map.get`.
- **Libraries the package calls but does not contain.** These are the CBOR
  encoder and parser, SHA-256, the Base64URL decoder, `Instant.parse` and
  `CBORizer`. They are the function-valued fields of `Cbor.Library`.
  - `Cbor.Lawful` says that parsing an encoding gives back the value,
    without tags.
  - `Cbor.CborizeInvertsPlain` says that `CBORizer` turns a parsed object
    back into the item it was read from.
  - A lemma that depends on one of these laws requires it.
- **Signature primitive.** `COSEVerifier.verify` is `CoseVerifier.Crypto`.
  The model knows only which key and which envelope it is given.
  Keys are named by their material: a certificate, or COSE EC2 parameters.
- **Java failures.** Every exception the Java code raises on input it cannot
  read is a `Failures.Failure` value:
  - `Malformed` stands for a ClassCastException, a NullPointerException, an
    IOException or a parse error;
  - the security and argument checks have a constructor each (`Expired`,
    `LifetimeTooLong`, `DeviceSignatureInvalid`, ...).
- **Form of the operations.**
  - Mappers that only read become functions.
  - Mappers with `for` loops become methods whose loops are proved equal to
    a pure specification function.
  - `COSESign1Ext` is a class, because `setPayload` overwrites its payload in
    place.
  - `SignedQRPayload` is a class, because its clock, lifetime and skew
    setters update it.
  - A mapper that allocates envelopes is a method. It states success iff
    `WellFormed(input)`, and on success `fresh` envelopes and
    `Represents(input, result)`.
- **Time.** An instant is a whole number of epoch seconds. A duration is a
  whole number of seconds. What the system clock reads is passed in as
  `systemNow`.

Notes on what the code does:

- A negative or zero maximum lifetime is accepted. It is never checked.
- Building a document does not verify the issuer signature. `assertValid`
  does not verify it either: it checks the lifetime, the window and the
  device signature only.
- `asEpochSecond` accepts negative and zero integers. The QRPayload comment
  in SignedQRPayload.java:17-22 gives "f" and "t" as `uint`.
- `SignedQRScenarios` uses the test's window, 11:51:03Z to 11:54:03Z.
- A deviceSigned map's "nameSpaces" is never read. The device name spaces are
  always empty.

## Model

| member | source | states |
|---|---|---|
| Cbor.FindByKey | src/main/java/dk/gov/dktb/mdoc/model/DeviceAuthentication.java:24-26 | `findByKey` is None exactly when no pair has the key; otherwise it is the value of the first pair with that key |
| Cbor.GetIsFindByKey | src/main/java/dk/gov/dktb/mdoc/model/DocumentExt.java:36-38 | `Map.get` gives null for a missing key, and otherwise the same value `findByKey` finds |
| Cbor.GetDistinct | src/main/java/dk/gov/dktb/mdoc/model/ValueDigestsExt.java:26-27 | with distinct keys, looking up the j-th key gives the j-th value |
| Cbor.DecodeEncodedCborData | src/main/java/dk/gov/dktb/mdoc/model/DeviceAuthentication.java:34 | tag-24 data parses to the byte string of the inner encoding, and that parses back to the item |
| Cbor.DecodeNext | src/main/java/dk/gov/dktb/mdoc/model/SignedQRPayload.java:61-62 | `parser.next()` succeeds exactly when the parser yields an item, and returns that item |
| Cbor.AsString | src/main/java/dk/gov/dktb/mdoc/model/DocumentExt.java:39 | the `(String)` cast accepts exactly null or a text string, and keeps the value |
| Cbor.AsByteArray | src/main/java/dk/gov/dktb/mdoc/model/COSESign1Ext.java:53-54 | the `(byte[])` cast accepts exactly null or a byte string, and keeps the value |
| Cbor.AsInteger | src/main/java/dk/gov/dktb/mdoc/model/DeviceResponseExt.java:43 | the `(Integer)` cast accepts exactly null or an integer in the 32-bit range; null maps to no value |
| Cbor.RequireMap | src/main/java/dk/gov/dktb/mdoc/model/SignedQRPayload.java:63-67 | the Map cast succeeds exactly on a map, with its pairs |
| Cbor.RequireList | src/main/java/dk/gov/dktb/mdoc/model/DeviceResponseExt.java:41 | the List cast succeeds exactly on an array, with its items |
| Cbor.RequireBytes | src/main/java/dk/gov/dktb/mdoc/model/SignedQRPayload.java:53 | the dereferenced `(byte[])` cast succeeds exactly on a byte string |
| ValueDigestsExt.DigestEntry | src/main/java/dk/gov/dktb/mdoc/model/ValueDigestsExt.java:26-27 | a digest ID entry exists iff the key is an Integer and its value a byte string or null; the entry holds that key and value |
| ValueDigestsExt.NameSpaceEntry | src/main/java/dk/gov/dktb/mdoc/model/ValueDigestsExt.java:23-29 | a name space converts iff its value is a map whose every key is an Integer with a byte-string or null value, and its name is a String or null; the entry keeps the name and has one digest ID per pair, in order; any other name space fails as malformed |
| ValueDigestsExt.DigestIDsFrom | src/main/java/dk/gov/dktb/mdoc/model/ValueDigestsExt.java:24-28 | the inner loop builds exactly the entry-by-entry mapping of the value map, stopping at the first bad entry |
| ValueDigestsExt.NameSpaceEntryFrom | src/main/java/dk/gov/dktb/mdoc/model/ValueDigestsExt.java:24-29 | the outer loop's body builds exactly `NameSpaceEntry` of its entry |
| ValueDigestsExt.From | src/main/java/dk/gov/dktb/mdoc/model/ValueDigestsExt.java:21-32 | the outer loop builds exactly the specification `DigestsOf` |
| ValueDigestsExt.DigestsOfShape | src/main/java/dk/gov/dktb/mdoc/model/ValueDigestsExt.java:21-32 | on success, one entry per name space in input order, and one digest ID per pair in input order, keys and values kept |
| ValueDigestsExt.DigestIsStoredValue | src/main/java/dk/gov/dktb/mdoc/model/ValueDigestsExt.java:26-27 | with distinct keys, each stored digest is `values.get(id)` for its own id |
| ValueDigestsExt.DigestsOfSucceeds | src/main/java/dk/gov/dktb/mdoc/model/ValueDigestsExt.java:21-32 | `from` succeeds iff the input is a map of maps with Integer keys and byte-string or null values |
| ValueDigestsExt.CountsAgree | src/main/java/dk/gov/dktb/mdoc/model/ValueDigestsExt.java:23-30 | entry lists of matching lengths have equal total counts |
| ValueDigestsExt.TotalCountPreserved | src/main/java/dk/gov/dktb/mdoc/model/ValueDigestsExt.java:21-32 | no digest is lost or added: the total number of digest IDs equals the number of input pairs (on a decoded map, where keys are distinct, the number of keys) |
| DeviceKeyInfoExt.KeyPair | src/main/java/dk/gov/dktb/mdoc/model/DeviceKeyInfoExt.java:28-30 | a COSE key pair is accepted iff its label is an Integer and its value an Integer, a byte string or null; it is kept unchanged |
| DeviceKeyInfoExt.KeyInfoOf | src/main/java/dk/gov/dktb/mdoc/model/DeviceKeyInfoExt.java:32 | key authorizations and key info are always null |
| DeviceKeyInfoExt.From | src/main/java/dk/gov/dktb/mdoc/model/DeviceKeyInfoExt.java:24-33 | the loop builds exactly the specification `KeyInfoOf` |
| DeviceKeyInfoExt.KeyPairsAreDeviceKeyEntries | src/main/java/dk/gov/dktb/mdoc/model/DeviceKeyInfoExt.java:25-32 | the COSE key's pairs are the "deviceKey" map's entries, in order |
| DeviceKeyInfoExt.KeyInfoOfSucceeds | src/main/java/dk/gov/dktb/mdoc/model/DeviceKeyInfoExt.java:24-33 | `from` succeeds iff "deviceKey" is a map with Integer labels and Integer, byte-string or null values |
| DeviceKeyInfoExt.OnlyDeviceKeyConsulted | src/main/java/dk/gov/dktb/mdoc/model/DeviceKeyInfoExt.java:25 | inputs that agree on "deviceKey" give the same result |
| ValidityInfoExt.WithoutExpectedUpdate | src/main/java/dk/gov/dktb/mdoc/model/ValidityInfoExt.java:18-23 | the three-argument constructor keeps its arguments and leaves expectedUpdate unset |
| ValidityInfoExt.AsZonedDateTime | src/main/java/dk/gov/dktb/mdoc/model/ValidityInfoExt.java:42-48 | null gives no instant; a text is parsed as an ISO-8601 instant; anything else fails |
| ValidityInfoExt.From | src/main/java/dk/gov/dktb/mdoc/model/ValidityInfoExt.java:33-40 | succeeds iff all four keys convert; each field is the instant its key denotes |
| ValidityInfoExt.FromReadsOnlyItsFourKeys | src/main/java/dk/gov/dktb/mdoc/model/ValidityInfoExt.java:35-38 | maps that agree on signed, validFrom, validUntil and expectedUpdate give the same result |
| ValidityInfoExt.AbsentKeysGiveNoInstants | src/main/java/dk/gov/dktb/mdoc/model/ValidityInfoExt.java:43 | a map without the four keys gives four unset instants |
| MobileSecurityObjectExt.WithoutVersion | src/main/java/dk/gov/dktb/mdoc/model/MobileSecurityObjectExt.java:29-35 | the four-argument constructor keeps its arguments; version and digestAlgorithm stay unset |
| MobileSecurityObjectExt.FromMap | src/main/java/dk/gov/dktb/mdoc/model/MobileSecurityObjectExt.java:52-58 | succeeds iff each of the six keys converts; each field is its key's conversion |
| MobileSecurityObjectExt.FromCbor | src/main/java/dk/gov/dktb/mdoc/model/MobileSecurityObjectExt.java:48-59 | succeeds iff the payload is a byte string that parses to a byte string that parses to a map the MSO accepts; the result is that map's MSO |
| MobileSecurityObjectExt.FromCborOfEncodedMap | src/main/java/dk/gov/dktb/mdoc/model/MobileSecurityObjectExt.java:49-50 | round trip: an MSO map encoded as tag-24 data reads back as the MSO of that map |
| MobileSecurityObjectExt.NonBytesPayloadRejected | src/main/java/dk/gov/dktb/mdoc/model/MobileSecurityObjectExt.java:49 | a payload that is not a byte string, null included, fails as malformed |
| COSESign1Ext.X5Chain | src/main/java/dk/gov/dktb/mdoc/model/COSESign1Ext.java:78 | a chain exists only where label 33 is set; a single byte string is a one-certificate chain |
| COSESign1Ext.AsPairs | src/main/java/dk/gov/dktb/mdoc/model/COSESign1Ext.java:70-75 | one pair per map entry, in order, with key and value cborized |
| COSESign1Ext.Parse | src/main/java/dk/gov/dktb/mdoc/model/COSESign1Ext.java:50-68 | succeeds iff the list holds the four envelope elements with their types; the headers, payload and signature are those elements |
| COSESign1Ext.ParseIgnoresTrailingElements | src/main/java/dk/gov/dktb/mdoc/model/COSESign1Ext.java:51-54 | elements after the fourth are never read |
| COSESign1Ext.UnprotectedHeaderOfParsed | src/main/java/dk/gov/dktb/mdoc/model/COSESign1Ext.java:59-62 | under the CBORizer law, an envelope read from a parsed list has that list's unprotected-header pairs unchanged |
| COSESign1Ext.COSESign1Ext.constructor | src/main/java/dk/gov/dktb/mdoc/model/COSESign1Ext.java:41-47 | the envelope holds exactly the four arguments, and records the payload it was built with |
| COSESign1Ext.COSESign1Ext.SetPayload | src/main/java/dk/gov/dktb/mdoc/model/COSESign1Ext.java:81-83 | the payload becomes the given bytes, and nothing else of the envelope changes |
| COSESign1Ext.COSESign1Ext.GetSigningCertificate | src/main/java/dk/gov/dktb/mdoc/model/COSESign1Ext.java:77-79 | the first certificate of the x5chain; fails when there is no chain or it is empty |
| COSESign1Ext.From | src/main/java/dk/gov/dktb/mdoc/model/COSESign1Ext.java:49-57 | succeeds iff the input is an envelope; a fresh envelope whose view, and whose view as built, is `Parse` of the input |
| IssuerNameSpacesExt.ItemOf | src/main/java/dk/gov/dktb/mdoc/model/IssuerNameSpacesExt.java:29-32 | a value is an item iff it is a byte string that parses to a map with the four typed fields; the item holds them |
| IssuerNameSpacesExt.NameSpaceEntry | src/main/java/dk/gov/dktb/mdoc/model/IssuerNameSpacesExt.java:24-38 | a name space converts iff its value is a list whose every element is a valid item encoding, and its name is a String or null; the entry keeps the name and has one item per element, in order; any other name space fails as malformed |
| IssuerNameSpacesExt.ItemsFrom | src/main/java/dk/gov/dktb/mdoc/model/IssuerNameSpacesExt.java:25-36 | the inner loop builds exactly the item-by-item mapping of the list |
| IssuerNameSpacesExt.NameSpaceEntryFrom | src/main/java/dk/gov/dktb/mdoc/model/IssuerNameSpacesExt.java:25-38 | the outer loop's body builds exactly `NameSpaceEntry` of its entry |
| IssuerNameSpacesExt.From | src/main/java/dk/gov/dktb/mdoc/model/IssuerNameSpacesExt.java:22-41 | the outer loop builds exactly the specification `NameSpacesOf` |
| IssuerNameSpacesExt.NameSpacesOfShape | src/main/java/dk/gov/dktb/mdoc/model/IssuerNameSpacesExt.java:22-41 | on success, one entry per name space in order, and one item per list element in order, each read from its own bytes |
| IssuerNameSpacesExt.NameSpacesOfSucceeds | src/main/java/dk/gov/dktb/mdoc/model/IssuerNameSpacesExt.java:22-41 | `from` succeeds iff every name space holds a list of valid item encodings |
| IssuerSignedExt.IssuerSignedExt.AssertSignatureValid | src/main/java/dk/gov/dktb/mdoc/model/IssuerSignedExt.java:35-48 | passes iff the envelope has a signing certificate and verifies under that certificate's key; a missing or empty x5chain fails as malformed, a rejected signature as issuer-signature-invalid |
| IssuerSignedExt.SigningKeyIsInputLeaf | src/main/java/dk/gov/dktb/mdoc/model/IssuerSignedExt.java:46-48 | the key the issuer check uses is that of the leaf certificate of the input's x5chain: the first certificate under label 33 of the unprotected header of the list under "issuerAuth" |
| IssuerSignedExt.Create | src/main/java/dk/gov/dktb/mdoc/model/IssuerSignedExt.java:22-27 | succeeds iff the envelope's payload holds an MSO; keeps both arguments and that MSO |
| IssuerSignedExt.From | src/main/java/dk/gov/dktb/mdoc/model/IssuerSignedExt.java:29-33 | succeeds iff name spaces, envelope and MSO are well formed; fresh envelope that represents the input |
| DeviceAuthExt.From | src/main/java/dk/gov/dktb/mdoc/model/DeviceAuthExt.java:20-23 | succeeds iff "deviceSignature" is an envelope; a fresh envelope that represents it |
| DeviceSignedExt.DeviceNameSpacesBytes.AsCbor | src/main/java/dk/gov/dktb/mdoc/model/DeviceSignedExt.java:26-28 | tag-24 data whose content parses back to the name spaces map |
| DeviceSignedExt.DeviceSignedExt.GetDeviceSignature | src/main/java/dk/gov/dktb/mdoc/model/DeviceSignedExt.java:31-33 | the envelope deviceAuth holds |
| DeviceSignedExt.From | src/main/java/dk/gov/dktb/mdoc/model/DeviceSignedExt.java:24-29 | succeeds iff "deviceAuth" is well formed; the name spaces are always empty |
| SessionTranscript.SessionTranscript.AsCbor | src/main/java/dk/gov/dktb/mdoc/model/SessionTranscript.java:94-100 | `[null, null, handover]`, from which the handover is read back |
| SessionTranscript.HandoverOfInverse | src/main/java/dk/gov/dktb/mdoc/model/SessionTranscript.java:94-100 | every `[null, null, h]` is the CBOR form of the transcript with handover h |
| SessionTranscript.ForOid4VP | src/main/java/dk/gov/dktb/mdoc/model/SessionTranscript.java:70-92 | the handover is the SHA-256 of the encoded [clientId, nonce], the SHA-256 of the encoded [responseUri, nonce], and the nonce |
| SessionTranscript.SameClientIdAndResponseUriSameHash | src/main/java/dk/gov/dktb/mdoc/model/SessionTranscript.java:73-83 | a client id equal to the response URI gives two equal hashes |
| SessionTranscript.ForSignedQR | src/main/java/dk/gov/dktb/mdoc/model/SessionTranscript.java:115-123 | the handover reads back as the nonce, validFrom and validTo |
| SessionTranscript.ForSignedQRInjective | src/main/java/dk/gov/dktb/mdoc/model/SessionTranscript.java:115-123 | different nonces or windows give different transcripts |
| DeviceAuthentication.DeviceAuthentication.Encode | src/main/java/dk/gov/dktb/mdoc/model/DeviceAuthentication.java:22-35 | succeeds iff the document has docType and a deviceSigned pair list with nameSpaces; the bytes are the tag-24 encoding of the four-element structure |
| DeviceAuthentication.DecodeEncoded | src/main/java/dk/gov/dktb/mdoc/model/DeviceAuthentication.java:28-34 | round trip: a parser finds the tag-24 content, then the context string, [null, null, handover], docType and name spaces |
| DocumentExt.DocumentExt.PairView | src/main/java/dk/gov/dktb/mdoc/model/DeviceAuthentication.java:24 | the document's pair view holds its docType |
| DocumentExt.DeviceKeyFromIssuerPayload | src/main/java/dk/gov/dktb/mdoc/model/DocumentExt.java:53-54 | the device check's key is the EC2 key of the "deviceKey" entries of the "deviceKeyInfo" map in the MSO that the input's issuer envelope carries, so nothing of the device envelope chooses it |
| DocumentExt.DocumentExt.DeviceSignatureOutcome | src/main/java/dk/gov/dktb/mdoc/model/DocumentExt.java:51-65 | passes iff the device envelope, its payload set to the DeviceAuthentication bytes, verifies under the MSO's device key; a missing deviceSigned fails |
| DocumentExt.DocumentExt.EncodeOfPairView | src/main/java/dk/gov/dktb/mdoc/model/DocumentExt.java:56-58 | DeviceAuthentication over the document finds its fields and encodes exactly the signed bytes |
| DocumentExt.DocumentExt.AssertSignatureValid | src/main/java/dk/gov/dktb/mdoc/model/DocumentExt.java:50-65 | the outcome is `DeviceSignatureOutcome`; the device envelope keeps the new payload whatever the verdict; the issuer envelope is untouched |
| DocumentExt.WithoutDeviceSigned | src/main/java/dk/gov/dktb/mdoc/model/DocumentExt.java:21-25 | the two-argument constructor keeps its arguments and leaves deviceSigned and errors unset |
| DocumentExt.NoDeviceSignedFails | src/main/java/dk/gov/dktb/mdoc/model/DocumentExt.java:52 | without deviceSigned the device check fails |
| DocumentExt.OutcomeIgnoresTransmittedPayload | src/main/java/dk/gov/dktb/mdoc/model/DocumentExt.java:58-60 | the payload the device envelope arrived with does not affect the verdict |
| DocumentExt.RepresentsContent | src/main/java/dk/gov/dktb/mdoc/model/DocumentExt.java:35-40 | a mapped document's values are the ones its input map gives: docType, name spaces, both envelopes as parsed, the MSO of the issuer payload, empty device name spaces, null errors |
| DocumentExt.RepresentsUnrewritten | src/main/java/dk/gov/dktb/mdoc/model/DocumentExt.java:35-40 | a freshly mapped document's envelopes still hold the payloads they were decoded with |
| DocumentExt.From | src/main/java/dk/gov/dktb/mdoc/model/DocumentExt.java:35-40 | succeeds iff issuerSigned, deviceSigned and docType are well formed; fresh envelopes; the document represents the map; errors null |
| DeviceResponseExt.DeviceResponseExt.GetDocument | src/main/java/dk/gov/dktb/mdoc/model/DeviceResponseExt.java:34-36 | the document at the index; an index outside the list fails |
| DeviceResponseExt.WithDocumentsOnly | src/main/java/dk/gov/dktb/mdoc/model/DeviceResponseExt.java:21-24 | the one-argument constructor keeps the documents; the rest unset and status 0 |
| DeviceResponseExt.EnvelopesAppend | src/main/java/dk/gov/dktb/mdoc/model/DeviceResponseExt.java:42 | appending a document adds exactly its envelopes |
| DeviceResponseExt.UnrewrittenAppend | src/main/java/dk/gov/dktb/mdoc/model/DeviceResponseExt.java:42 | appending a document whose payloads are as decoded keeps every payload of the list as decoded |
| DeviceResponseExt.RepresentsDocument | src/main/java/dk/gov/dktb/mdoc/model/DeviceResponseExt.java:42 | the i-th document has the content of the i-th element of "documents", both envelopes included |
| DeviceResponseExt.DocumentFrom | src/main/java/dk/gov/dktb/mdoc/model/DeviceResponseExt.java:42 | one stream element: succeeds iff the element is a well-formed document; fresh envelopes, distinct issuer and device envelopes, payloads as decoded, the element's content including both envelopes |
| DeviceResponseExt.NextDocument | src/main/java/dk/gov/dktb/mdoc/model/DeviceResponseExt.java:42 | the next stream element: a failure means not every element is a document; a success extends the well-formed prefix, the element-to-document pairing and the payloads-as-decoded fact by one |
| DeviceResponseExt.DocumentsFrom | src/main/java/dk/gov/dktb/mdoc/model/DeviceResponseExt.java:42 | the stream succeeds iff every element is well formed; one document per element in order, each with its element's content and envelopes, none rewritten |
| DeviceResponseExt.From | src/main/java/dk/gov/dktb/mdoc/model/DeviceResponseExt.java:38-44 | succeeds iff documents, version and status are well formed; the result represents the map, each document's envelopes are the parsed envelopes of its element and still hold their payloads; errors null |
| DeviceResponseExt.FromBytes | src/main/java/dk/gov/dktb/mdoc/model/DeviceResponseExt.java:46-51 | succeeds iff the bytes parse to at least one item and the first is a well-formed response, which the result represents as `From` states |
| SignedQRPayload.TimeToLiveGate | src/main/java/dk/gov/dktb/mdoc/model/SignedQRPayload.java:96-100 | passes iff the window is at most the maximum lifetime; otherwise lifetime-too-long |
| SignedQRPayload.TemporalGate | src/main/java/dk/gov/dktb/mdoc/model/SignedQRPayload.java:80-94 | a negative skew fails first; then expired iff now is after validTo + skew; then not-yet-valid iff now is before validFrom − skew; passes iff now is in the widened window |
| SignedQRPayload.TemporalGateMonotoneInSkew | src/main/java/dk/gov/dktb/mdoc/model/SignedQRPayload.java:85-91 | a wider skew accepts every instant a narrower one accepts |
| SignedQRPayload.DefaultTimeToLive | src/main/java/dk/gov/dktb/mdoc/model/SignedQRPayload.java:36-37 | under the default, a 190-second window passes and a 191-second one fails |
| SignedQRPayload.SignedQRScenarios | src/test/java/dk/gov/dktb/mdoc/model/SignedQRTest.java:28-70 | the test instants: valid at 11:53:00, expired at 11:58:00, not yet valid at 11:30:00, valid within the skew at 11:54:33 and 11:50:33, and both skew boundaries exact |
| SignedQRPayload.Validate | src/main/java/dk/gov/dktb/mdoc/model/SignedQRPayload.java:102-106 | passes iff all three checks pass; otherwise the first failing check's failure |
| SignedQRPayload.AsEpochSecond | src/main/java/dk/gov/dktb/mdoc/model/SignedQRPayload.java:70-78 | an Integer or Long within Instant's range is that many epoch seconds; a non-integer or null is refused |
| SignedQRPayload.AsMap | src/main/java/dk/gov/dktb/mdoc/model/SignedQRPayload.java:60-68 | succeeds iff the first parsed item is a map, and returns its pairs |
| SignedQRPayload.FieldsOf | src/main/java/dk/gov/dktb/mdoc/model/SignedQRPayload.java:46-53 | bad Base64URL fails; on success the nonce, instants and document map are the values under "m", "f", "t" and "d" |
| SignedQRPayload.FieldsOfEncodedPayload | src/main/java/dk/gov/dktb/mdoc/model/SignedQRPayload.java:46-53 | round trip: an encoded payload map reads back as its nonce, window and document |
| SignedQRPayload.SignedQRPayload.constructor | src/main/java/dk/gov/dktb/mdoc/model/SignedQRPayload.java:30-43 | the fields as read, the system clock, a 190-second lifetime and a 60-second skew |
| SignedQRPayload.SignedQRPayload.SetClock | src/main/java/dk/gov/dktb/mdoc/model/SignedQRPayload.java:30-31 | the clock changes; lifetime and skew do not |
| SignedQRPayload.SignedQRPayload.SetMaxAllowedTimeToLive | src/main/java/dk/gov/dktb/mdoc/model/SignedQRPayload.java:36-37 | the lifetime changes; clock and skew do not |
| SignedQRPayload.SignedQRPayload.SetAllowedClockSkew | src/main/java/dk/gov/dktb/mdoc/model/SignedQRPayload.java:42-43 | the skew changes; clock and lifetime do not |
| SignedQRPayload.SignedQRPayload.Now | src/main/java/dk/gov/dktb/mdoc/model/SignedQRPayload.java:83 | the system clock reads the current instant; a fixed clock reads its own |
| SignedQRPayload.SignedQRPayload.Transcript | src/main/java/dk/gov/dktb/mdoc/model/SignedQRPayload.java:109 | the transcript's handover is this payload's nonce and window |
| SignedQRPayload.SignedQRPayload.AssertTimeToLiveValid | src/main/java/dk/gov/dktb/mdoc/model/SignedQRPayload.java:96-100 | the outcome is the lifetime gate over the current maximum |
| SignedQRPayload.SignedQRPayload.AssertNotExpiredOrNotYetValid | src/main/java/dk/gov/dktb/mdoc/model/SignedQRPayload.java:80-94 | the outcome is the temporal gate at the clock's instant with the current skew |
| SignedQRPayload.SignedQRPayload.AssertDeviceSignatureValid | src/main/java/dk/gov/dktb/mdoc/model/SignedQRPayload.java:108-111 | the document's device check over the signed-QR transcript; the device envelope's payload becomes the signed bytes and the rest of it stays; the issuer envelope is untouched |
| SignedQRPayload.SignedQRPayload.AssertValid | src/main/java/dk/gov/dktb/mdoc/model/SignedQRPayload.java:102-106 | lifetime, then window, then device signature, the first failure wins; the device envelope is untouched when a gate fails and otherwise has its payload set to the signed bytes; the issuer envelope is untouched |
| SignedQRPayload.FromQrData | src/main/java/dk/gov/dktb/mdoc/model/SignedQRPayload.java:45-58 | succeeds iff the fields read, the document is well formed and validTo is after validFrom; each failure has its own error; defaults set |

## Left out

- Multi-part QR reassembly (`fromMultipleParts`): the test calls it, but it
  is not in SignedQRPayload.java. `IssuerSignedUtils` is not part of this
  model.
- Base64URL, SHA-256, the CBOR encoder and parser, `CBORizer` and
  `Instant.parse` are abstract library functions. Only the decode-of-encode
  law and the CBORizer law are assumed of them.
- X.509 certificate parsing and public-key extraction are not modelled.
  `COSEVerifier.verify` is abstract too. A key is named by the bytes or the
  parameters it comes from.
- Exception types and messages: every error on unreadable input is one
  `Malformed` value, and the message strings are dropped.
- SignedQRPayload.TemporalGate: `plusSeconds` and `minusSeconds` on an
  instant near the end of `Instant`'s range throw. The model adds unbounded
  integers instead. The clock is read in whole seconds, so nanoseconds are
  ignored.
- SignedQRPayload.TimeToLiveGate: a Duration's nanoseconds are ignored, and
  so is the `DateTimeException` of `Instant.minus` near the range end.
- SignedQRPayload.SignedQRPayload.SetClock: setting a null clock, duration
  or skew is not modelled, and neither is the NullPointerException that
  would follow.
- IssuerSignedExt.IssuerSignedExt.AssertSignatureValid: the check for a
  missing algorithm has an empty body, so it is not modelled.
- DocumentExt.DocumentExt.PairView: this is the document's `findByKey`
  view. It is modelled only for the docType and the device name spaces,
  because DeviceAuthentication reads nothing else.
- DeviceResponseExt.From: each document's issuer and device envelopes are
  distinct (`DocumentExt.From` proves this for each document), but the
  response-level contract does not repeat it for every index, to keep the
  stream's proof small.
- DeviceResponseExt.DocumentsFrom: the `stream().map(...).toList()` is a
  loop. Its per-element contract is passed in as ghost predicates that
  stand for `DocumentExt.WellFormed` and `DocumentExt.Content`.
- Duplicate map keys: a `java.util.Map` holds each key once, but the
  model's maps are pair sequences that may repeat a key. On such an input
  the loops over `keySet()` and `entrySet()` (ValueDigestsExt,
  DeviceKeyInfoExt, `asPairs`) visit every pair, and `Get` returns the
  first. No law says that the parser yields distinct keys. Where distinct
  keys matter, the lemma requires `DistinctKeys`, as `GetDistinct` and
  `DigestIsStoredValue` do.
- The `CBORParser` object views (Integer for 32-bit values, Long for 64-bit
  values, byte[] for byte strings, String for text, Map and List) are
  assumed to match the generic value. No other number type is modelled.
- The setters of the Lombok-generated classes outside SignedQRPayload and
  COSESign1Ext are not modelled, because the core never calls them.
