# X.509 certificate stream reading and attribute-certificate issuer matching

A Dafny model of two pieces of a PKI provider:

- **`X509CertParser`**, a certificate stream reader built as a small state machine. Each
  `engineRead` does one of three things. It hands out the next certificate of an active
  PKCS#7 SignedData certificate set (section 9.1 of RFC 2315), skipping entries that are not
  certificates. It clears an exhausted set and returns null. Or it peeks one byte of the
  stream. The peek gives null at the end of the stream. A `0x30` byte (a DER SEQUENCE) takes
  the DER path. There a SEQUENCE with more than one element whose element 0 is the
  signedData identifier opens an envelope, or raises when element 1 is not a SignedData.
  Any other SEQUENCE, a one-element one included, is read as a bare certificate (section
  4.1 of RFC 5280). Any other byte takes the PEM path (section 5 of RFC 7468). `engineReadAll` collects reads
  until the first null.
- **`AttributeCertificateIssuer`**, the issuer of an attribute certificate (the `V2Form` or
  bare `GeneralNames` of section 4.2.3 of RFC 5755), used as a certificate selector. `match`
  decides whether an X.509 certificate is the one the issuer designates. `getNames` lists the
  directory names of the issuer.

Files:

- `pki.dfy` (module `Pki`): `Option`, `Result`, distinguished names, decoded certificates.
- `x509_cert_parser.dfy` (module `X509CertParsing`): the stream model and the pure step
  functions (`TakeCertificate`, `NextFromSet`, `DerStep`, `PemStep`, `Step`, `Drain`). It also
  holds the class `X509CertParser`, whose fields `sData`, `sDataObjectCount` and
  `currentStream` are updated in place. Each method is proved to move the state exactly as
  the matching step function says.
- `x509_cert_parser_properties.dfy` (module `X509CertParserProperties`): what the reader
  guarantees. This covers the cursor invariant, format detection, envelope recognition,
  draining a set, and where `engineReadAll` stops.
- `attribute_certificate_issuer.dfy` (module `AttributeCertificates`): the issuer as a value
  (its `form` is set by a constructor and never changed), with `match`, `matchesDN`,
  `getNames` and `getPrincipals`.

How the stream is modelled. The byte stream is seen one level up, as the sequence of
top-level objects ("chunks") not yet read. A chunk records its first byte and what each
foreign decoder makes of the bytes that start there:

- the ASN.1 reader: an unreadable object, or a SEQUENCE with its elements and its reading as
  a certificate;
- the PEM reader: no block, a bad block, or a block with its reading as a certificate.

A reading as a certificate (building an `X509CertificateObject` from `getInstance`) has three
outcomes: a certificate; an `IllegalArgumentException` ("not a certificate structure", as for an
attribute certificate); or any other exception ("malformed"). Only the middle one matters to
`getCertificate`, which catches nothing else: a set entry that is not a certificate structure is
skipped, and a malformed one makes the read raise.

A decoder call consumes exactly that chunk. Peeking and resetting is a look at the first
chunk that leaves the stream as it was (`LeadByte`). `currentStream` is `None` before
`engineInit`. The package-private constructor `AttributeCertificateIssuer(AttCertIssuer)` is
the datatype constructor `AttributeCertificateIssuer(form)`, applied to the form that
`AttCertIssuer.getIssuer` returns.

Two behaviours of the code that a reader might not expect, both modelled as written:

- An exhausted envelope does not fall through to the next object of the stream. When the
  cursor reaches the end of the set, the next `engineRead` clears the set and returns null.
  When the last entries are not certificates, `getCertificate` itself returns null. Either
  way `engineReadAll` stops after the first envelope, so a stream holding a bare
  certificate, an envelope and a bare certificate yields only the first two
  (`ConcatenatedStream`).
- `getNames` raises a `RuntimeException` on a directory name that does not decode. It does
  not skip the name.

## Model

| member | source | states |
|---|---|---|
| `X509CertParsing.TakeCertificate` | crypto/src/org/bouncycastle/jce/provider/X509CertParser.java:53-70 | getCertificate returns the first certificate at or after the old cursor and leaves the cursor just past it, with every entry in between skipped as not a certificate (IllegalArgumentException); a malformed entry met first raises, with the cursor just past it, since nothing else is caught; if there is none, it gives null with the cursor at the end of the set; if the cursor is already at or past the end, getObjectAt fails after the cursor was bumped; the recursion stops at the end of the set |
| `X509CertParsing.StepProgress` | crypto/src/org/bouncycastle/jce/provider/X509CertParser.java:143-155 | a read that yields a certificate either consumes a stream object or moves the cursor forward inside the set, so the engineReadAll loop terminates |
| `X509CertParsing.X509CertParser.constructor` | crypto/src/org/bouncycastle/jce/provider/X509CertParser.java:26-28 | a new reader has no stream, no envelope and cursor 0 |
| `X509CertParsing.X509CertParser.EngineInit` | crypto/src/org/bouncycastle/jce/provider/X509CertParser.java:87-97 | takes the new stream, drops any active set and resets the cursor to 0, establishing the cursor invariant |
| `X509CertParsing.X509CertParser.GetCertificate` | crypto/src/org/bouncycastle/jce/provider/X509CertParser.java:53-70 | the recursive method post-increments the cursor and moves the reader exactly as TakeCertificate says |
| `X509CertParsing.X509CertParser.ReadDERCertificate` | crypto/src/org/bouncycastle/jce/provider/X509CertParser.java:30-51 | it installs the certificate set of a signedData SEQUENCE (more than one element, element 0 the signedData OID) and reads from it, raising when element 1 is not a SignedData; a SEQUENCE that is not signedData is read as a bare certificate and raises when it is not one; an unreadable or non-SEQUENCE object raises; the stream is not touched |
| `X509CertParsing.X509CertParser.ReadPEMCertificate` | crypto/src/org/bouncycastle/jce/provider/X509CertParser.java:72-85 | no PEM block gives null; a block that is not a certificate raises; the reader state is unchanged |
| `X509CertParsing.X509CertParser.EngineRead` | crypto/src/org/bouncycastle/jce/provider/X509CertParser.java:99-141 | the new state and the result are those of Step: drain the set, or clear an exhausted set with null, or peek and dispatch; every exception comes out as a StreamParsingException with its cause |
| `X509CertParsing.X509CertParser.EngineReadAll` | crypto/src/org/bouncycastle/jce/provider/X509CertParser.java:143-155 | the loop returns, in order, the certificates of successive reads up to but excluding the first null, and ends in the state Drain gives; an exception aborts the whole call |
| `X509CertParserProperties.StepKeepsCursorInvariant` | crypto/src/org/bouncycastle/jce/provider/X509CertParser.java:104-116 | every read keeps the cursor invariant: cursor 0 without a set, 0 <= cursor <= size inside a non-empty set, and cursor > 0 for an empty set |
| `X509CertParserProperties.FormatDetection` | crypto/src/org/bouncycastle/jce/provider/X509CertParser.java:118-135 | at end of stream a read gives null and changes nothing; otherwise it consumes exactly the peeked object; a first byte other than 0x30 takes the PEM path, which opens no envelope and gives null (not an error) exactly when there is no block |
| `X509CertParserProperties.LeadByteSelectsDecoder` | crypto/src/org/bouncycastle/jce/provider/X509CertParser.java:126-135 | the peeked byte alone picks the decoder: 0x30 reads DER, any other byte reads PEM |
| `X509CertParserProperties.EnvelopeRecognition` | crypto/src/org/bouncycastle/jce/provider/X509CertParser.java:37-50 | a SEQUENCE opens an envelope iff it has more than one element, element 0 is the signedData OID and element 1 holds a SignedData; when it has more than one element and element 0 is the signedData OID but element 1 is not a SignedData, the read raises with no envelope opened and the object is not tried as a certificate; a SEQUENCE that fails the first two conditions (a one-element one included) is decoded as a bare certificate, and one that is not a certificate structure raises IllegalArgumentException, a malformed one its own exception |
| `X509CertParserProperties.ExhaustedSetYieldsNull` | crypto/src/org/bouncycastle/jce/provider/X509CertParser.java:104-116 | with cursor == size, the next read clears the set, resets the cursor to 0 and gives null without touching the stream |
| `X509CertParserProperties.EmptySetRaises` | crypto/src/org/bouncycastle/jce/provider/X509CertParser.java:42-45 | an empty certificate set makes getObjectAt fail with the cursor already bumped; the set stays active, so every later read fails the same way |
| `X509CertParserProperties.EndOfStreamIsIdempotent` | crypto/src/org/bouncycastle/jce/provider/X509CertParser.java:118-124 | at end of stream with no envelope, a read gives null and changes nothing, so engineReadAll returns an empty list |
| `X509CertParsing.Certificates` | crypto/src/org/bouncycastle/jce/provider/X509CertParser.java:53-70 | reading a set gives its certificate entries (exactly those, in order, skipping the rest) and fails iff some entry is malformed |
| `X509CertParserProperties.DrainSet` | crypto/src/org/bouncycastle/jce/provider/X509CertParser.java:104-116 | engineReadAll with an active set gives what Certificates says of the entries from the cursor on (every certificate entry in order, or a failure on a malformed one, whatever certificates came before) and never reads the stream; on success it leaves the set cleared or active at its end according to its last entry, on failure active with the cursor just past the first malformed entry |
| `X509CertParserProperties.DrainEnvelope` | crypto/src/org/bouncycastle/jce/provider/X509CertParser.java:37-46 | engineReadAll on a stream that starts with an envelope gives what Certificates says of its set (its certificates in order, or a failure on a malformed entry) and never reads the object after it; an empty set raises |
| `X509CertParserProperties.DrainBareCertificates` | crypto/src/org/bouncycastle/jce/provider/X509CertParser.java:143-155 | engineReadAll on a stream of bare certificates yields all of them in order and stops at the end of the stream |
| `X509CertParserProperties.ConcatenatedStream` | crypto/src/org/bouncycastle/jce/provider/X509CertParser.java:110-115 | a bare certificate, an envelope with one certificate and another bare certificate: the first engineReadAll yields only the first two; a second one yields the third |
| `AttributeCertificates.FromPrincipal` | crypto/jdk1.1/org/bouncycastle/x509/AttributeCertificateIssuer.java:38-42 | the principal constructor builds a V2Form without a base certificate ID, whose names give exactly that principal |
| `AttributeCertificates.DirectoryPrincipals` | crypto/jdk1.1/org/bouncycastle/x509/AttributeCertificateIssuer.java:44-77 | the names give a list iff no directory name fails to decode, and otherwise "badly formed Name object"; the list holds exactly the decoded directory names |
| `AttributeCertificates.DirectoryPrincipalsAppend` | crypto/jdk1.1/org/bouncycastle/x509/AttributeCertificateIssuer.java:61-74 | the names are processed entry by entry, left to right: the result for a concatenation joins the results for its parts |
| `AttributeCertificates.DirectoryPrincipalsSingle` | crypto/jdk1.1/org/bouncycastle/x509/AttributeCertificateIssuer.java:63-72 | one entry: a decodable directory name gives its principal, an undecodable one raises, and any other kind gives nothing |
| `AttributeCertificates.GetNames` | crypto/jdk1.1/org/bouncycastle/x509/AttributeCertificateIssuer.java:44-77 | the index loop over the issuer-name list (of the V2Form, or the bare GeneralNames) returns DirectoryPrincipals of that list |
| `AttributeCertificates.ToPrincipalArray` | crypto/jdk1.1/org/bouncycastle/x509/AttributeCertificateIssuer.java:97 | the typed toArray succeeds iff every list element is a principal, and keeps the order; otherwise it raises ArrayStoreException |
| `AttributeCertificates.GetPrincipalsAsWritten` | crypto/jdk1.1/org/bouncycastle/x509/AttributeCertificateIssuer.java:84-98 | as written, getPrincipals succeeds (with an empty result) only when getNames is empty; it raises ArrayStoreException whenever there is a principal, and passes on the failure of getNames |
| `AttributeCertificates.GetPrincipals` | crypto/jdk1.1/org/bouncycastle/x509/AttributeCertificateIssuer.java:84-98 | as intended (each p[i] added), getPrincipals returns exactly what getNames returns |
| `AttributeCertificates.PrincipalIssuerBreaksGetPrincipals` | crypto/jdk1.1/org/bouncycastle/x509/AttributeCertificateIssuer.java:93 | for an issuer built from a principal, getPrincipals as written raises ArrayStoreException, while the intended version returns that principal |
| `AttributeCertificates.MatchesDN` | crypto/jdk1.1/org/bouncycastle/x509/AttributeCertificateIssuer.java:100-124 | true iff some tag-4 entry decodes to a name equal to the subject (hence false for an empty list); other kinds, and entries that fail to decode, contribute nothing and raise nothing |
| `AttributeCertificates.Match` | crypto/jdk1.1/org/bouncycastle/x509/AttributeCertificateIssuer.java:137-185 | not X.509 gives false; with a base certificate ID, true iff the serials agree and the certificate's issuer is named in the base ID, with no fallback; otherwise true iff the certificate's subject is named in the issuer-name list; a principal that cannot be extracted gives false |
| `AttributeCertificates.BaseCertificateIDIgnoresIssuerName` | crypto/jdk1.1/org/bouncycastle/x509/AttributeCertificateIssuer.java:151-162 | with a base certificate ID, whether a certificate matches does not depend on the issuer-name list at all |
| `AttributeCertificates.NoFallbackToIssuerName` | crypto/jdk1.1/org/bouncycastle/x509/AttributeCertificateIssuer.java:151-162 | with a base certificate ID and a different serial there is no match, even when the subject is among the issuer names |
| `AttributeCertificates.PrincipalIssuerMatchesSubject` | crypto/jdk1.1/org/bouncycastle/x509/AttributeCertificateIssuer.java:164-167 | the issuer built from a principal matches exactly the X.509 certificates whose subject is that principal |
| `AttributeCertificates.MatchesDNAgreesWithGetNames` | crypto/jdk1.1/org/bouncycastle/x509/AttributeCertificateIssuer.java:108-115 | when the names decode, matchesDN is true for a subject exactly when the subject is among the principals getNames returns |

## Left out

- The ASN.1 codec, `SignedData`, `ProviderUtil.getReadLimit`, `X509CertificateStructure.getInstance`,
  `PEMUtil.readPEMObject` and `X509CertificateObject` are foreign. What they make of each top-level
  object is given as data in the chunk. Every exception of `getInstance` or of
  `X509CertificateObject`'s constructor other than `IllegalArgumentException` is one outcome,
  "malformed"; the model does not tell them apart, since all of them raise alike.
- Byte-level `mark`/`reset` and the `BufferedInputStream` wrapping in `engineInit` are I/O plumbing.
  The stream is the sequence of objects still to be read. A read that raises is modelled as having
  consumed the object it failed on, because the real byte position after a failed decode is
  unspecified.
- A SignedData without a certificates field (`getCertificates()` returns null, so the reader
  raises a NullPointerException): the model's envelopes always carry a certificate set.
- `sDataObjectCount` is a Java `int`. The model uses an unbounded `nat`. The counter only grows
  past the size of the set in the repeated failures of an empty set, far below 2^31.
- A `V2Form` without `issuerName` (the field is optional in section 4.2.3 of RFC 5755): the source
  raises a NullPointerException in `match` when there is no base certificate ID, and in
  `getNames`. The model takes the issuer-name list as present, which RFC 5755 requires of
  conforming issuers. With a base certificate ID, `match` never reads the issuer names, and
  neither does the model's `Match` (`BaseCertificateIDIgnoresIssuerName`), so nothing is lost
  in that branch.
- `X509Principal` encoding and equality, and `PrincipalUtil`, are foreign. A distinguished name is a
  value compared with `==`, with each RDN a set. Decoding and extraction are given as `Option`
  values. The principal constructor assumes that re-decoding the principal gives it back.
- `clone` is just `AttCertIssuer.getInstance(form)`, a foreign call.
- crypto/jdk1.0/org/bouncycastle/crypto/test/SkipjackTest.java is not part of this model. It is
  a one-vector test harness around a cipher engine, with console output and no logic of its own.

## Findings

| source | as written | input that shows it | evidently intended | confidence | as-written member | corrected member |
|---|---|---|---|---|---|---|
| crypto/jdk1.1/org/bouncycastle/x509/AttributeCertificateIssuer.java:93 | `l.add(p)` adds the whole array of names for each principal, so the typed `toArray(new Principal[...])` at line 97 raises ArrayStoreException whenever there is any principal | an issuer built by the principal constructor from any principal | `l.add(p[i])`: return the principals that `getNames` finds | high (not executed) | `AttributeCertificates.GetPrincipalsAsWritten`, shown by `AttributeCertificates.PrincipalIssuerBreaksGetPrincipals` | `AttributeCertificates.GetPrincipals` |
