/** IssuerSigned (section 8.3.2.1.2.2 of ISO/IEC 18013-5): the issuer-signed
    items and the issuer's COSE_Sign1 envelope over the MSO. */
module IssuerSignedExt {
  import opened Wrappers
  import opened Failures
  import opened Cbor
  import COSESign1Ext
  import CoseVerifier
  import IssuerNameSpacesExt
  import MobileSecurityObjectExt

  /** The mobile security object is read from the envelope's payload once,
      when the value is built. */
  datatype IssuerSignedExt = IssuerSignedExt(
    nameSpaces: IssuerNameSpacesExt.IssuerNameSpacesExt,
    issuerAuth: COSESign1Ext.COSESign1Ext,
    mobileSecurityObject: MobileSecurityObjectExt.MobileSecurityObjectExt)
  {
    /** `assertSignatureValid`: the envelope must verify under the public key
        of the first certificate of its x5chain. It reads the envelope and
        changes nothing. The source also tests for a missing algorithm, in
        an `if` whose body is empty, so that test does not affect the
        outcome and is not modelled. */
    function AssertSignatureValid(crypto: CoseVerifier.Crypto): (r: Outcome<Failure>)
      reads issuerAuth
      ensures r.Pass? <==>
        && issuerAuth.GetSigningCertificate().Success?
        && crypto.verify(CoseVerifier.CertificateKey(issuerAuth.GetSigningCertificate().value), issuerAuth.View())
      ensures issuerAuth.GetSigningCertificate().Success? && r.Fail? ==> r.error == IssuerSignatureInvalid
      ensures issuerAuth.GetSigningCertificate().Failure? ==> r == Fail(Malformed)
    {
      match issuerAuth.GetSigningCertificate()
      case Failure(e) => Fail(e)
      case Success(certificate) =>
        if crypto.verify(SigningKey(certificate), issuerAuth.View()) then Pass
        else Fail(IssuerSignatureInvalid)
    }
  }

  /** `getSigningKey`: the public key of the leaf certificate. */
  function SigningKey(certificate: ByteString): (k: CoseVerifier.PublicKey)
    ensures k.CertificateKey? && k.certificate == certificate
  {
    CoseVerifier.CertificateKey(certificate)
  }

  /** The key the issuer check verifies with belongs to the leaf certificate
      of the input's x5chain (section 2 of RFC 9360): the first certificate
      under label 33 of the unprotected header of the list under
      "issuerAuth". */
  lemma SigningKeyIsInputLeaf(lib: Library, crypto: CoseVerifier.Crypto, cbor: CborValue, s: IssuerSignedExt)
    requires CborizeInvertsPlain(lib)
    requires Represents(lib, cbor, s)
    requires Plain(Get(cbor.entries, Text("issuerAuth"))) == Get(cbor.entries, Text("issuerAuth"))
    ensures var header := Get(cbor.entries, Text("issuerAuth")).items[COSESign1Ext.UNPROTECTED_HEADER_INDEX];
      var chain := COSESign1Ext.X5Chain(COSESign1Ext.UnprotectedHeader(header.entries));
      s.AssertSignatureValid(crypto).Pass? <==>
        && chain.Some? && |chain.value| > 0
        && crypto.verify(CoseVerifier.CertificateKey(chain.value[0]), s.issuerAuth.View())
  {
    COSESign1Ext.UnprotectedHeaderOfParsed(lib, Get(cbor.entries, Text("issuerAuth")));
  }

  /** The constructor: keeps both arguments and reads the MSO out of the
      envelope's current payload. */
  function Create(lib: Library, nameSpaces: IssuerNameSpacesExt.IssuerNameSpacesExt,
                  issuerAuth: COSESign1Ext.COSESign1Ext): (r: Result<IssuerSignedExt, Failure>)
    reads issuerAuth
    ensures r.Success? <==> MobileSecurityObjectExt.FromCbor(lib, issuerAuth.payload).Success?
    ensures r.Success? ==>
      && r.value.nameSpaces == nameSpaces
      && r.value.issuerAuth == issuerAuth
      && r.value.mobileSecurityObject == MobileSecurityObjectExt.FromCbor(lib, issuerAuth.payload).value
  {
    var mso :- MobileSecurityObjectExt.FromCbor(lib, issuerAuth.payload);
    Success(IssuerSignedExt(nameSpaces, issuerAuth, mso))
  }

  /** What `from` accepts: a map whose "nameSpaces" maps, whose "issuerAuth"
      is an envelope, and whose envelope payload holds an MSO. */
  predicate WellFormed(lib: Library, cbor: CborValue) {
    && cbor.MapV?
    && IssuerNameSpacesExt.NameSpacesOf(lib, Get(cbor.entries, Text("nameSpaces"))).Success?
    && COSESign1Ext.IsEnvelope(lib, Get(cbor.entries, Text("issuerAuth")))
    && MobileSecurityObjectExt.FromCbor(lib, COSESign1Ext.Parse(lib, Get(cbor.entries, Text("issuerAuth"))).value.payload).Success?
  }

  /** r holds what `from` reads out of cbor. */
  ghost predicate Represents(lib: Library, cbor: CborValue, r: IssuerSignedExt)
    reads r.issuerAuth
  {
    && WellFormed(lib, cbor)
    && r.nameSpaces == IssuerNameSpacesExt.NameSpacesOf(lib, Get(cbor.entries, Text("nameSpaces"))).value
    && r.issuerAuth.View() == r.issuerAuth.Received() == COSESign1Ext.Parse(lib, Get(cbor.entries, Text("issuerAuth"))).value
    && r.mobileSecurityObject == MobileSecurityObjectExt.FromCbor(lib, r.issuerAuth.payload).value
  }

  /** `from`: the name spaces from "nameSpaces", a fresh envelope from the
      list under "issuerAuth", and the MSO from that envelope's payload. */
  method From(lib: Library, cbor: CborValue) returns (r: Result<IssuerSignedExt, Failure>)
    ensures r.Success? <==> WellFormed(lib, cbor)
    ensures r.Success? ==> fresh(r.value.issuerAuth) && Represents(lib, cbor, r.value)
  {
    if !cbor.MapV? {
      return Failure(Malformed);
    }
    var nameSpaces := IssuerNameSpacesExt.From(lib, Get(cbor.entries, Text("nameSpaces")));
    if nameSpaces.Failure? {
      return Failure(nameSpaces.error);
    }
    var issuerAuth := COSESign1Ext.From(lib, Get(cbor.entries, Text("issuerAuth")));
    if issuerAuth.Failure? {
      return Failure(issuerAuth.error);
    }
    r := Create(lib, nameSpaces.value, issuerAuth.value);
  }
}
