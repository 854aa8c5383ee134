/** The signature primitive: COSEVerifier.verify over the Sig_structure of
    section 4.4 of RFC 9052, with the keys it is given. Only its interface is
    modelled. */
module CoseVerifier {
  import opened Cbor
  import COSESign1Ext

  /** A public key, named by the material it is created from: the leaf
      certificate of an x5chain (X509Certificate.getPublicKey) or the
      parameters of a COSE EC2 key (COSEEC2Key.createPublicKey). */
  datatype PublicKey =
    | CertificateKey(certificate: ByteString)
    | Ec2Key(parameters: Pairs)

  datatype Crypto = Crypto(verify: (PublicKey, COSESign1Ext.Sign1) -> bool)
}
