/** The issuer of an attribute certificate (AttributeCertificateIssuer), used
    as a certificate selector: its form is the v2Form or the bare GeneralNames
    of section 4.2.3 of RFC 5755, fixed when the issuer is built, and match
    decides whether an X.509 certificate is the one it designates.

    Distinguished names are compared as values; decoding a directory name
    into a principal, and extracting a certificate's principals, are foreign
    and given as Option values (None where they raise). */
module AttributeCertificates {
  import opened Pki

  /** The GeneralName tag of a directoryName (section 4.2.1.6 of RFC 5280). */
  const DirectoryNameTag: nat := 4

  /** The tags of the other GeneralName alternatives. */
  type OtherTag = t: nat | t <= 8 && t != DirectoryNameTag witness 0

  /** A GeneralName. getNames picks the entries whose name is an X509Name,
      matchesDN those whose tag is 4; the model takes these to be the same
      entries, since a tag-4 GeneralName holds an X509Name and no other kind
      does. A directoryName carries the principal that re-decoding its
      X509Name gives, or None when that decoding raises an IOException; the
      other kinds are not looked into. */
  datatype GeneralName = DirectoryName(principal: Option<DistinguishedName>) | OtherName(tag: OtherTag)

  function TagNo(g: GeneralName): nat
  {
    match g
    case DirectoryName(_) => DirectoryNameTag
    case OtherName(t) => t
  }

  /** IssuerSerial: the issuer names and serial number of the base certificate. */
  datatype IssuerSerial = IssuerSerial(issuer: seq<GeneralName>, serial: int)

  /** The two forms of AttCertIssuer: a V2Form, or bare GeneralNames (v1Form). */
  datatype IssuerForm =
    | V2Form(baseCertificateID: Option<IssuerSerial>, issuerName: seq<GeneralName>)
    | GeneralNames(names: seq<GeneralName>)

  /** The selector. Its form is set by the constructor and never changed, so
      the object is a value; building it from an AttCertIssuer is applying
      this constructor to the form that AttCertIssuer.getIssuer gives. */
  datatype AttributeCertificateIssuer = AttributeCertificateIssuer(form: IssuerForm)

  /** The exceptions of the principal accessors. */
  datatype IssuerError =
    | BadlyFormedName   // RuntimeException("badly formed Name object") from getNames
    | ArrayStore        // ArrayStoreException from the typed toArray

  /** `targets` holds a directoryName that decodes to `dn`. */
  ghost predicate Lists(targets: seq<GeneralName>, dn: DistinguishedName)
  {
    exists i :: 0 <= i < |targets| && targets[i] == DirectoryName(Some(dn))
  }

  /** The issuer principal that builds the issuer from one X509Principal: a
      V2Form without base certificate, naming just that principal. */
  function FromPrincipal(principal: DistinguishedName): (r: AttributeCertificateIssuer)
    ensures r.form.V2Form? && r.form.baseCertificateID.None?
    ensures DirectoryPrincipals(IssuerNames(r.form)) == Success([principal])
  {
    DirectoryPrincipalsSingle(DirectoryName(Some(principal)));
    AttributeCertificateIssuer(V2Form(None, [DirectoryName(Some(principal))]))
  }

  /** The issuer-name list of a form. */
  function IssuerNames(form: IssuerForm): seq<GeneralName>
  {
    match form
    case V2Form(_, issuerName) => issuerName
    case GeneralNames(names) => names
  }

  /** The principals of the X509Name entries of `names`, in their order;
      other kinds are skipped, and one that does not decode fails the whole
      list. */
  function DirectoryPrincipals(names: seq<GeneralName>): (r: Result<seq<DistinguishedName>, IssuerError>)
    ensures r.Failure? <==> exists i :: 0 <= i < |names| && names[i] == DirectoryName(None)
    ensures r.Failure? ==> r.error == BadlyFormedName
    ensures r.Success? ==> |r.value| <= |names| && forall dn :: dn in r.value <==> Lists(names, dn)
  {
    if names == [] then Success([])
    else
      match names[0]
      case OtherName(_) => DirectoryPrincipals(names[1..])
      case DirectoryName(None) => Failure(BadlyFormedName)
      case DirectoryName(Some(dn)) =>
        match DirectoryPrincipals(names[1..])
        case Success(rest) => Success([dn] + rest)
        case Failure(e) => Failure(e)
  }

  /** Joins the results for two consecutive parts of a list. */
  function Concat(a: Result<seq<DistinguishedName>, IssuerError>, b: Result<seq<DistinguishedName>, IssuerError>): Result<seq<DistinguishedName>, IssuerError>
  {
    match a
    case Failure(e) => Failure(e)
    case Success(x) =>
      match b
      case Failure(e) => Failure(e)
      case Success(y) => Success(x + y)
  }

  /** DirectoryPrincipals works entry by entry, left to right: with the
      results for one-entry lists below, this fixes the order of its result. */
  lemma {:induction false} DirectoryPrincipalsAppend(a: seq<GeneralName>, b: seq<GeneralName>)
    ensures DirectoryPrincipals(a + b) == Concat(DirectoryPrincipals(a), DirectoryPrincipals(b))
  {
    if a != [] {
      assert (a + b)[0] == a[0];
      assert (a + b)[1..] == a[1..] + b;
      DirectoryPrincipalsAppend(a[1..], b);
      match DirectoryPrincipals(a[1..])
      case Failure(_) =>
      case Success(x) =>
        if DirectoryPrincipals(b).Success? && a[0].DirectoryName? && a[0].principal.Some? {
          assert [a[0].principal.value] + (x + DirectoryPrincipals(b).value)
              == ([a[0].principal.value] + x) + DirectoryPrincipals(b).value;
        }
    } else {
      assert a + b == b;
      if DirectoryPrincipals(b).Success? {
        assert [] + DirectoryPrincipals(b).value == DirectoryPrincipals(b).value;
      }
    }
  }

  /** One-entry lists: a decodable directory name gives its principal, an
      undecodable one fails, any other kind gives nothing. */
  lemma DirectoryPrincipalsSingle(g: GeneralName)
    ensures g.DirectoryName? && g.principal.Some? ==> DirectoryPrincipals([g]) == Success([g.principal.value])
    ensures g == DirectoryName(None) ==> DirectoryPrincipals([g]) == Failure(BadlyFormedName)
    ensures g.OtherName? ==> DirectoryPrincipals([g]) == Success([])
  {
    assert [g][1..] == [];
    if g.DirectoryName? && g.principal.Some? {
      assert [g.principal.value] + [] == [g.principal.value];
    }
  }

  /** getNames: a loop over the issuer-name list that collects the principal
      of every X509Name entry, raising on one that does not decode. */
  method GetNames(issuer: AttributeCertificateIssuer) returns (r: Result<seq<DistinguishedName>, IssuerError>)
    ensures r == DirectoryPrincipals(IssuerNames(issuer.form))
  {
    var names := IssuerNames(issuer.form);
    var l: seq<DistinguishedName> := [];
    var i := 0;
    while i != |names|
      invariant 0 <= i <= |names|
      invariant DirectoryPrincipals(names[..i]) == Success(l)
    {
      assert names[..i + 1] == names[..i] + [names[i]];
      DirectoryPrincipalsAppend(names[..i], [names[i]]);
      DirectoryPrincipalsSingle(names[i]);
      match names[i] {
        case DirectoryName(None) =>
          return Failure(BadlyFormedName);
        case DirectoryName(Some(dn)) =>
          l := l + [dn];
        case OtherName(_) =>
          assert l + [] == l;
      }
      i := i + 1;
    }
    assert names[..i] == names;
    r := Success(l);
  }

  /** An element of the list that getPrincipals builds: a principal, or (what
      the source adds) the whole array of names. */
  datatype ListElement = PrincipalElement(principal: DistinguishedName) | ArrayElement(all: seq<DistinguishedName>)

  /** l.toArray(new Principal[l.size()]): succeeds only when every element is a principal. */
  function ToPrincipalArray(l: seq<ListElement>): (r: Result<seq<DistinguishedName>, IssuerError>)
    ensures r.Success? <==> forall i :: 0 <= i < |l| ==> l[i].PrincipalElement?
    ensures r.Failure? ==> r.error == ArrayStore
    ensures r.Success? ==> |r.value| == |l| && forall i :: 0 <= i < |l| ==> r.value[i] == l[i].principal
  {
    if l == [] then Success([])
    else
      match l[0]
      case ArrayElement(_) => Failure(ArrayStore)
      case PrincipalElement(p) =>
        match ToPrincipalArray(l[1..])
        case Success(rest) => Success([p] + rest)
        case Failure(e) => Failure(e)
  }

  /** getPrincipals as written: every name is a Principal, and for each one
      the whole array is added to the list, so the typed toArray raises as
      soon as there is any principal at all. */
  method GetPrincipalsAsWritten(issuer: AttributeCertificateIssuer) returns (r: Result<seq<DistinguishedName>, IssuerError>)
    ensures DirectoryPrincipals(IssuerNames(issuer.form)).Failure? ==> r == Failure(BadlyFormedName)
    ensures r.Success? <==> DirectoryPrincipals(IssuerNames(issuer.form)) == Success([])
    ensures r.Success? ==> r.value == []
    ensures DirectoryPrincipals(IssuerNames(issuer.form)).Success? && r.Failure? ==> r.error == ArrayStore
  {
    var names := GetNames(issuer);
    if names.Failure? {
      return Failure(names.error);
    }
    var p := names.value;
    var l: seq<ListElement> := [];
    var i := 0;
    while i != |p|
      invariant 0 <= i <= |p|
      invariant |l| == i && forall j :: 0 <= j < i ==> l[j] == ArrayElement(p)
    {
      l := l + [ArrayElement(p)];
      i := i + 1;
    }
    r := ToPrincipalArray(l);
    if |p| > 0 {
      assert !l[0].PrincipalElement?;
    }
  }

  /** getPrincipals as intended: the principal of each name is added, so the
      result is exactly the list getNames gives. */
  method GetPrincipals(issuer: AttributeCertificateIssuer) returns (r: Result<seq<DistinguishedName>, IssuerError>)
    ensures r == DirectoryPrincipals(IssuerNames(issuer.form))
  {
    var names := GetNames(issuer);
    if names.Failure? {
      return Failure(names.error);
    }
    var p := names.value;
    var l: seq<ListElement> := [];
    var i := 0;
    while i != |p|
      invariant 0 <= i <= |p|
      invariant |l| == i && forall j :: 0 <= j < i ==> l[j] == PrincipalElement(p[j])
    {
      l := l + [PrincipalElement(p[i])];
      i := i + 1;
    }
    r := ToPrincipalArray(l);
    assert r.value == p;
  }

  /** The issuer built from a principal has that principal to give, yet
      getPrincipals as written raises on it. */
  method PrincipalIssuerBreaksGetPrincipals(principal: DistinguishedName) returns (written: Result<seq<DistinguishedName>, IssuerError>, intended: Result<seq<DistinguishedName>, IssuerError>)
    ensures written == Failure(ArrayStore)
    ensures intended == Success([principal])
  {
    var issuer := FromPrincipal(principal);
    written := GetPrincipalsAsWritten(issuer);
    intended := GetPrincipals(issuer);
  }

  /** matchesDN: whether some directoryName of `targets` decodes to `subject`.
      Entries of other kinds, and directory names that do not decode, are
      passed over without raising. */
  function MatchesDN(subject: DistinguishedName, targets: seq<GeneralName>): (r: bool)
    ensures r <==> Lists(targets, subject)
  {
    if targets == [] then false
    else if TagNo(targets[0]) == DirectoryNameTag && targets[0].principal == Some(subject) then true
    else MatchesDN(subject, targets[1..])
  }

  /** match: a certificate that is not X.509 never matches. With a base
      certificate ID, the serial numbers must agree and the certificate's
      issuer must be among the base ID's names, and nothing else is tried.
      Otherwise the certificate's subject must be among the issuer names.
      A principal that cannot be extracted means no match. */
  function Match(issuer: AttributeCertificateIssuer, cert: Certificate): (r: bool)
    ensures !cert.X509? ==> !r
    ensures cert.X509? && issuer.form.V2Form? && issuer.form.baseCertificateID.Some? ==>
              (r <==> && cert.x509.serialNumber == issuer.form.baseCertificateID.value.serial
                      && cert.x509.issuerPrincipal.Some?
                      && Lists(issuer.form.baseCertificateID.value.issuer, cert.x509.issuerPrincipal.value))
    ensures cert.X509? && !(issuer.form.V2Form? && issuer.form.baseCertificateID.Some?) ==>
              (r <==> && cert.x509.subjectPrincipal.Some?
                      && Lists(IssuerNames(issuer.form), cert.x509.subjectPrincipal.value))
  {
    match cert
    case OtherCertificate => false
    case X509(x) =>
      match issuer.form
      case V2Form(Some(base), _) =>
        if base.serial == x.serialNumber then
          match x.issuerPrincipal
          case None => false
          case Some(issuerPrincipal) => MatchesDN(issuerPrincipal, base.issuer)
        else false
      case V2Form(None, issuerName) => SubjectListed(x, issuerName)
      case GeneralNames(names) => SubjectListed(x, names)
  }

  /** The subject test of match, false when the subject cannot be extracted. */
  function SubjectListed(x: X509Certificate, names: seq<GeneralName>): bool
  {
    match x.subjectPrincipal
    case None => false
    case Some(subject) => MatchesDN(subject, names)
  }

  /** With a base certificate ID, the issuer names play no part in match. */
  lemma BaseCertificateIDIgnoresIssuerName(b: IssuerSerial, n1: seq<GeneralName>, n2: seq<GeneralName>, cert: Certificate)
    ensures Match(AttributeCertificateIssuer(V2Form(Some(b), n1)), cert)
        <==> Match(AttributeCertificateIssuer(V2Form(Some(b), n2)), cert)
  {
  }

  /** With a base certificate ID, a certificate whose serial differs does not
      match, even when its subject is among the issuer names. */
  lemma NoFallbackToIssuerName(issuer: AttributeCertificateIssuer, x: X509Certificate)
    requires issuer.form.V2Form? && issuer.form.baseCertificateID.Some?
    requires x.serialNumber != issuer.form.baseCertificateID.value.serial
    requires x.subjectPrincipal.Some? && Lists(issuer.form.issuerName, x.subjectPrincipal.value)
    ensures !Match(issuer, X509(x))
  {
  }

  /** The issuer built from a principal matches exactly the X.509
      certificates whose subject is that principal. */
  lemma PrincipalIssuerMatchesSubject(principal: DistinguishedName, cert: Certificate)
    ensures Match(FromPrincipal(principal), cert) <==> cert.X509? && cert.x509.subjectPrincipal == Some(principal)
  {
    if cert.X509? && cert.x509.subjectPrincipal == Some(principal) {
      assert FromPrincipal(principal).form.issuerName[0] == DirectoryName(Some(principal));
    }
  }

  /** matchesDN and getNames agree: when the names decode, a subject matches
      exactly when it is among the principals getNames gives. */
  lemma MatchesDNAgreesWithGetNames(subject: DistinguishedName, names: seq<GeneralName>)
    requires DirectoryPrincipals(names).Success?
    ensures MatchesDN(subject, names) <==> subject in DirectoryPrincipals(names).value
  {
  }
}
