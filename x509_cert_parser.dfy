/** The X.509 certificate stream reader (X509CertParser): a small state machine
    that hands out one certificate per call from a stream of DER or PEM
    encoded objects, unwrapping PKCS#7 SignedData envelopes (section 9.1 of
    RFC 2315) on the way.

    The byte stream is modelled one level up, as the sequence of top-level
    objects ("chunks") still to be read. A chunk records its first byte and
    what each of the two foreign decoders (the ASN.1 reader and the PEM
    reader) makes of the bytes that start there; calling a decoder consumes
    that one chunk. Peeking at the first byte and resetting the stream is a
    look at the chunk that leaves the stream as it was. */
module X509CertParsing {
  import opened Pki

  type Byte = b: int | 0 <= b < 0x100

  /** The DER tag of a constructed SEQUENCE: a chunk starting with it is read as DER. */
  const SequenceTag: Byte := 0x30

  /** The content type signedData, 1.2.840.113549.1.7.2 (section 14 of RFC 2315). */
  const SignedDataOid: seq<nat> := [1, 2, 840, 113549, 1, 7, 2]

  /** What new X509CertificateObject(X509CertificateStructure.getInstance(...))
      makes of an ASN.1 object: a certificate; an IllegalArgumentException
      (an attribute certificate, for one, is not a certificate structure); or
      any other unchecked exception of the two foreign calls. */
  datatype Structure =
    | CertificateStructure(cert: X509Certificate)
    | NotACertificate
    | Malformed

  /** An element of a top-level DER SEQUENCE, as far as the reader looks at it. */
  datatype Element =
    | ObjectIdentifier(arcs: seq<nat>)
      /** an explicitly tagged SignedData, with the entries of its certificate set */
    | SignedDataContent(certificates: seq<Structure>)
    | OtherElement

  /** What ASN1InputStream.readObject, cast to a SEQUENCE, reads at a chunk. */
  datatype DerObject =
      /** the ASN.1 reader raises (truncated or malformed data, not a SEQUENCE) */
    | Unreadable
      /** a SEQUENCE: its elements, and what it is when read as a bare certificate */
    | Sequence(elements: seq<Element>, asCertificate: Structure)

  /** What PEMUtil.readPEMObject reads at a chunk: no certificate block before
      the end of the input, a block it cannot decode, or a decoded block. */
  datatype PemObject = NoBlock | BadBlock | Block(asCertificate: Structure)

  /** A top-level object of the input stream. */
  datatype Chunk = Chunk(lead: Byte, der: DerObject, pem: PemObject)

  /** The exception wrapped into the StreamParsingException that engineRead raises. */
  datatype Cause =
    | DecodeFailure        // the DER or PEM reader raised an IOException, or the
                           // top-level object is not a SEQUENCE (ClassCastException)
    | IllegalArgument      // a bare or PEM object is not a certificate structure
    | CertificateFailure   // any other exception while building the certificate
    | BadSignedData        // element 1 of a signedData SEQUENCE is not a SignedData
    | IndexOutOfBounds     // getObjectAt past the end of the certificate set
    | NullStream           // engineRead before engineInit

  /** What one engineRead call gives back: a certificate, null, or a raised
      StreamParsingException with its cause. */
  datatype Outcome = Got(cert: X509Certificate) | Null | Raised(cause: Cause)

  /** The three fields of the reader. currentStream is None before engineInit
      and otherwise the chunks not read yet; sData is the certificate set of
      the active envelope; sDataObjectCount the cursor into it. */
  datatype ParserState = ParserState(
    currentStream: Option<seq<Chunk>>,
    sData: Option<seq<Structure>>,
    sDataObjectCount: nat)

  /** What one getCertificate call finds in the certificate set. */
  datatype Fetch = Fetched(cert: X509Certificate) | SetExhausted | EntryFailed | IndexOutOfRange

  /** Entries from..to-1 of the set are not certificates. */
  ghost predicate Skipped(certificates: seq<Structure>, from: nat, to: nat)
  {
    forall i :: from <= i < to && i < |certificates| ==> certificates[i] == NotACertificate
  }

  /** The cursor invariant the reader keeps: without an envelope the cursor
      is 0; inside a non-empty set it never passes the end; an empty set has
      already made getObjectAt fail, with the cursor bumped past 0. */
  ghost predicate CursorInvariant(p: ParserState)
  {
    && (p.sData.None? ==> p.sDataObjectCount == 0)
    && (p.sData.Some? && |p.sData.value| > 0 ==> p.sDataObjectCount <= |p.sData.value|)
    && (p.sData == Some([]) ==> p.sDataObjectCount > 0)
  }

  /** getCertificate on the set `certificates` with the cursor at `count`:
      the new cursor and what was found. Each attempt post-increments the
      cursor; a non-certificate entry (IllegalArgumentException) is skipped
      by recursing while the cursor is still inside the set. The result is
      the first certificate at or after the old cursor, or a failure when a
      malformed entry comes first, since no other exception is caught, or
      null with the cursor at the end of the set; with the cursor already at
      or past the end, getObjectAt fails. */
  function TakeCertificate(certificates: seq<Structure>, count: nat): (r: (nat, Fetch))
    ensures r.1.IndexOutOfRange? <==> count >= |certificates|
    ensures r.1.IndexOutOfRange? ==> r.0 == count + 1
    ensures r.1.Fetched? ==>
              && count < r.0 <= |certificates|
              && certificates[r.0 - 1] == CertificateStructure(r.1.cert)
              && Skipped(certificates, count, r.0 - 1)
    ensures r.1.EntryFailed? ==>
              && count < r.0 <= |certificates|
              && certificates[r.0 - 1] == Malformed
              && Skipped(certificates, count, r.0 - 1)
    ensures r.1.SetExhausted? ==>
              r.0 == |certificates| && Skipped(certificates, count, |certificates|)
    decreases |certificates| - count
  {
    if count >= |certificates| then (count + 1, IndexOutOfRange)
    else match certificates[count]
      case CertificateStructure(c) => (count + 1, Fetched(c))
      case Malformed => (count + 1, EntryFailed)
      case NotACertificate =>
        if count + 1 < |certificates| then TakeCertificate(certificates, count + 1)
        else (count + 1, SetExhausted)
  }

  function FetchOutcome(f: Fetch): Outcome
  {
    match f
    case Fetched(c) => Got(c)
    case SetExhausted => Null
    case EntryFailed => Raised(CertificateFailure)
    case IndexOutOfRange => Raised(IndexOutOfBounds)
  }

  /** getCertificate as a step of the reader. */
  function NextFromSet(p: ParserState): (ParserState, Outcome)
    requires p.sData.Some?
  {
    var (count, fetch) := TakeCertificate(p.sData.value, p.sDataObjectCount);
    (p.(sDataObjectCount := count), FetchOutcome(fetch))
  }

  /** new X509CertificateObject(X509CertificateStructure.getInstance(...)). */
  function Decoded(p: ParserState, s: Structure): (ParserState, Outcome)
  {
    match s
    case CertificateStructure(c) => (p, Got(c))
    case NotACertificate => (p, Raised(IllegalArgument))
    case Malformed => (p, Raised(CertificateFailure))
  }

  /** A SEQUENCE is a SignedData envelope when it has more than one element
      and element 0 is the signedData object identifier. */
  predicate IsSignedData(elements: seq<Element>)
  {
    |elements| > 1 && elements[0].ObjectIdentifier? && elements[0].arcs == SignedDataOid
  }

  /** readDERCertificate on the object just read. The cursor is not reset
      here: the reader only comes this way without an active envelope. */
  function DerStep(p: ParserState, d: DerObject): (ParserState, Outcome)
  {
    match d
    case Unreadable => (p, Raised(DecodeFailure))
    case Sequence(elements, asCertificate) =>
      if IsSignedData(elements) then
        match elements[1]
        case SignedDataContent(certificates) => NextFromSet(p.(sData := Some(certificates)))
        case _ => (p, Raised(BadSignedData))
      else Decoded(p, asCertificate)
  }

  /** readPEMCertificate on the object just read: no block is null, not an error. */
  function PemStep(p: ParserState, pem: PemObject): (ParserState, Outcome)
  {
    match pem
    case NoBlock => (p, Null)
    case BadBlock => (p, Raised(DecodeFailure))
    case Block(s) => Decoded(p, s)
  }

  /** The first byte of the stream, or -1 at its end; the stream is left as it was. */
  function LeadByte(input: seq<Chunk>): int
  {
    if input == [] then -1 else input[0].lead
  }

  /** engineRead: drain the active envelope, or clear an exhausted one and
      give null, or else peek one byte and dispatch on it. */
  function Step(p: ParserState): (ParserState, Outcome)
  {
    if p.sData.Some? then
      if p.sDataObjectCount != |p.sData.value| then NextFromSet(p)
      else (p.(sData := None, sDataObjectCount := 0), Null)
    else
      match p.currentStream
      case None => (p, Raised(NullStream))
      case Some(input) =>
        var tag := LeadByte(input);
        if tag == -1 then (p, Null)
        else
          var next := p.(currentStream := Some(input[1..]));
          if tag != SequenceTag then PemStep(next, input[0].pem)
          else DerStep(next, input[0].der)
  }

  /** Chunks of the stream still to be read. */
  function StreamLeft(p: ParserState): nat
  {
    match p.currentStream
    case None => 0
    case Some(input) => |input|
  }

  /** Entries of the active set still to be tried. */
  function SetLeft(p: ParserState): nat
  {
    if p.sData.Some? && p.sDataObjectCount <= |p.sData.value|
    then |p.sData.value| - p.sDataObjectCount
    else 0
  }

  /** A read that yields a certificate either consumes a chunk of the stream
      or moves the cursor forward inside the set. */
  lemma StepProgress(p: ParserState)
    ensures Step(p).1.Got? ==>
              || StreamLeft(Step(p).0) < StreamLeft(p)
              || (StreamLeft(Step(p).0) == StreamLeft(p) && SetLeft(Step(p).0) < SetLeft(p))
  {
  }

  function Prepend(c: X509Certificate, r: Result<seq<X509Certificate>, Cause>): Result<seq<X509Certificate>, Cause>
  {
    match r
    case Success(certs) => Success([c] + certs)
    case Failure(e) => Failure(e)
  }

  /** engineReadAll: the certificates of successive reads up to the first null;
      a raised exception ends the call and the certificates collected are lost. */
  function Drain(p: ParserState): (ParserState, Result<seq<X509Certificate>, Cause>)
    decreases StreamLeft(p), SetLeft(p)
  {
    var (q, o) := Step(p);
    match o
    case Null => (q, Success([]))
    case Raised(cause) => (q, Failure(cause))
    case Got(c) =>
      StepProgress(p);
      var (last, rest) := Drain(q);
      (last, Prepend(c, rest))
  }

  /** What reading a certificate set gives: its certificate entries, in
      order, skipping the entries that are not certificates, or a failure
      when any entry is malformed. */
  function Certificates(entries: seq<Structure>): (r: Result<seq<X509Certificate>, Cause>)
    ensures r.Failure? <==> Malformed in entries
    ensures r.Failure? ==> r.error == CertificateFailure
    ensures r.Success? ==>
              && |r.value| <= |entries|
              && forall c :: c in r.value <==> CertificateStructure(c) in entries
  {
    if entries == [] then Success([])
    else match entries[0]
      case CertificateStructure(c) => Prepend(c, Certificates(entries[1..]))
      case NotACertificate => Certificates(entries[1..])
      case Malformed => Failure(CertificateFailure)
  }

  /** The reader itself, with the three fields it updates in place. */
  class X509CertParser {
    var sData: Option<seq<Structure>>
    var sDataObjectCount: nat
    var currentStream: Option<seq<Chunk>>

    function State(): ParserState
      reads this
    {
      ParserState(currentStream, sData, sDataObjectCount)
    }

    /** A new reader has no stream and no envelope. */
    constructor ()
      ensures State() == ParserState(None, None, 0)
      ensures CursorInvariant(State())
    {
      sData := None;
      sDataObjectCount := 0;
      currentStream := None;
    }

    /** Takes a new stream and forgets any envelope in progress. */
    method EngineInit(input: seq<Chunk>)
      modifies this
      ensures State() == ParserState(Some(input), None, 0)
      ensures CursorInvariant(State())
    {
      currentStream := Some(input);
      sData := None;
      sDataObjectCount := 0;
    }

    method GetCertificate() returns (o: Outcome)
      requires sData.Some?
      modifies this`sDataObjectCount
      ensures (State(), o) == NextFromSet(old(State()))
      decreases |sData.value| - sDataObjectCount
    {
      var certificates := sData.value;
      var index := sDataObjectCount;
      sDataObjectCount := sDataObjectCount + 1;
      if index >= |certificates| {
        o := Raised(IndexOutOfBounds);
        return;
      }
      match certificates[index]
      case CertificateStructure(c) =>
        o := Got(c);
      case Malformed =>
        o := Raised(CertificateFailure);
      case NotACertificate =>
        if sDataObjectCount < |certificates| {
          o := GetCertificate();
        } else {
          o := Null;
        }
    }

    method ReadDERCertificate(d: DerObject) returns (o: Outcome)
      modifies this`sData, this`sDataObjectCount
      ensures (State(), o) == DerStep(old(State()), d)
    {
      match d
      case Unreadable =>
        o := Raised(DecodeFailure);
      case Sequence(elements, asCertificate) =>
        if IsSignedData(elements) {
          match elements[1]
          case SignedDataContent(certificates) =>
            sData := Some(certificates);
            o := GetCertificate();
          case _ =>
            o := Raised(BadSignedData);
        } else {
          o := Decoded(State(), asCertificate).1;
        }
    }

    method ReadPEMCertificate(pem: PemObject) returns (o: Outcome)
      ensures (State(), o) == PemStep(State(), pem)
    {
      match pem
      case NoBlock =>
        o := Null;
      case BadBlock =>
        o := Raised(DecodeFailure);
      case Block(s) =>
        o := Decoded(State(), s).1;
    }

    method EngineRead() returns (o: Outcome)
      modifies this
      ensures (State(), o) == Step(old(State()))
    {
      if sData.Some? {
        if sDataObjectCount != |sData.value| {
          o := GetCertificate();
        } else {
          sData := None;
          sDataObjectCount := 0;
          o := Null;
        }
        return;
      }
      match currentStream
      case None =>
        o := Raised(NullStream);
      case Some(input) =>
        var tag := LeadByte(input);
        if tag == -1 {
          o := Null;
          return;
        }
        currentStream := Some(input[1..]);
        if tag != SequenceTag {
          o := ReadPEMCertificate(input[0].pem);
        } else {
          o := ReadDERCertificate(input[0].der);
        }
    }

    method EngineReadAll() returns (r: Result<seq<X509Certificate>, Cause>)
      modifies this
      ensures (State(), r) == Drain(old(State()))
    {
      var certs: seq<X509Certificate> := [];
      assert PrependAll(certs, Drain(State()).1) == Drain(State()).1 by {
        if Drain(State()).1.Success? {
          assert certs + Drain(State()).1.value == Drain(State()).1.value;
        }
      }
      while true
        invariant Drain(old(State())).0 == Drain(State()).0
        invariant Drain(old(State())).1 == PrependAll(certs, Drain(State()).1)
        decreases StreamLeft(State()), SetLeft(State())
      {
        ghost var before := State();
        var o := EngineRead();
        assert Drain(before) == match o
          case Null => (State(), Success([]))
          case Raised(cause) => (State(), Failure(cause))
          case Got(c) => (Drain(State()).0, Prepend(c, Drain(State()).1));
        match o
        case Null =>
          assert certs + [] == certs;
          return Success(certs);
        case Raised(cause) =>
          return Failure(cause);
        case Got(c) =>
          StepProgress(before);
          PrependAllStep(certs, c, Drain(State()).1);
          certs := certs + [c];
      }
    }
  }

  function PrependAll(certs: seq<X509Certificate>, r: Result<seq<X509Certificate>, Cause>): Result<seq<X509Certificate>, Cause>
  {
    match r
    case Success(rest) => Success(certs + rest)
    case Failure(e) => Failure(e)
  }

  lemma PrependAllStep(certs: seq<X509Certificate>, c: X509Certificate, r: Result<seq<X509Certificate>, Cause>)
    ensures PrependAll(certs, Prepend(c, r)) == PrependAll(certs + [c], r)
  {
    if r.Success? {
      assert certs + ([c] + r.value) == (certs + [c]) + r.value;
    }
  }
}
