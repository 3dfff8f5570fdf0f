/** Values shared by the certificate stream reader and the attribute
    certificate issuer: optional and fallible results, distinguished names
    and decoded X.509 certificates, as far as either component looks into them.
    Encoding, decoding and signatures belong to collaborators outside this model. */
module Pki {

  /** A value that may be absent (Java's null). */
  datatype Option<+T> = None | Some(value: T)

  /** A value or the exception that took its place. */
  datatype Result<+T, +E> = Success(value: T) | Failure(error: E)

  /** One attribute type (an object identifier, as its arcs) and its value. */
  datatype AttributeTypeAndValue = AttributeTypeAndValue(oid: seq<nat>, value: string)

  /** A relative distinguished name is a SET of attribute type/value pairs:
      the order in which they were encoded does not matter. */
  datatype Rdn = Rdn(attributes: set<AttributeTypeAndValue>)

  /** A distinguished name: the ordered sequence of its RDNs. A value stands
      for one class of X509Principal objects that equals holds between; how
      X509Principal compares is not part of this model. */
  datatype DistinguishedName = DistinguishedName(rdns: seq<Rdn>)

  /** A decoded X.509 certificate (X509CertificateObject). The two principals
      are what PrincipalUtil extracts from its encoding; None stands for the
      CertificateEncodingException that extraction may raise. */
  datatype X509Certificate = X509Certificate(
    serialNumber: int,
    issuerPrincipal: Option<DistinguishedName>,
    subjectPrincipal: Option<DistinguishedName>)

  /** java.security.cert.Certificate: an X.509 certificate or a certificate of another kind. */
  datatype Certificate = X509(x509: X509Certificate) | OtherCertificate
}
