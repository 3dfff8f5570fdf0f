/** What the certificate stream reader guarantees, stated over the step
    functions that its methods are proved against. */
module X509CertParserProperties {
  import opened Pki
  import opened X509CertParsing

  /** Every read keeps the cursor invariant: no cursor without an envelope,
      and the cursor of a non-empty set stays within it. */
  lemma StepKeepsCursorInvariant(p: ParserState)
    requires CursorInvariant(p)
    ensures CursorInvariant(Step(p).0)
  {
    if p.sData.Some? && p.sDataObjectCount != |p.sData.value| {
      var (count, fetch) := TakeCertificate(p.sData.value, p.sDataObjectCount);
      assert count > p.sDataObjectCount;
    }
  }

  /** Format detection: at the end of the stream a read gives null and
      changes nothing; otherwise it consumes exactly the object whose first
      byte it peeked. A first byte other than 0x30 takes the PEM path, which
      never opens an envelope and gives null, not an error, when there is
      no certificate block. */
  lemma FormatDetection(p: ParserState, input: seq<Chunk>)
    requires p.sData.None? && p.currentStream == Some(input)
    ensures input == [] ==> Step(p) == (p, Null)
    ensures input != [] ==> Step(p).0.currentStream == Some(input[1..])
    ensures input != [] && input[0].lead != SequenceTag ==>
              && Step(p).0 == p.(currentStream := Some(input[1..]))
              && (Step(p).1 == Null <==> input[0].pem == NoBlock)
              && (Step(p).1.Got? <==> input[0].pem.Block? && input[0].pem.asCertificate.CertificateStructure?)
              && (Step(p).1.Got? ==> Step(p).1.cert == input[0].pem.asCertificate.cert)
  {
  }

  /** The first byte alone selects the decoder: two objects with the same
      first byte read the same when they agree for the decoder it selects. */
  lemma LeadByteSelectsDecoder(p: ParserState, a: Chunk, b: Chunk, rest: seq<Chunk>)
    requires p.sData.None?
    requires a.lead == b.lead
    requires a.lead == SequenceTag ==> a.der == b.der
    requires a.lead != SequenceTag ==> a.pem == b.pem
    ensures Step(p.(currentStream := Some([a] + rest))) == Step(p.(currentStream := Some([b] + rest)))
  {
    assert ([a] + rest)[1..] == rest;
    assert ([b] + rest)[1..] == rest;
  }

  /** A DER SEQUENCE opens an envelope exactly when it has more than one
      element, element 0 is the signedData identifier and element 1 holds a
      SignedData. When the first two conditions hold but element 1 is not a
      SignedData, the read raises and the object is not tried as a
      certificate. Only a SEQUENCE that fails the first two conditions (one
      with a single element included) is read as a bare certificate. */
  lemma EnvelopeRecognition(p: ParserState, ch: Chunk, rest: seq<Chunk>)
    requires CursorInvariant(p) && p.sData.None?
    requires p.currentStream == Some([ch] + rest)
    requires ch.lead == SequenceTag && ch.der.Sequence?
    ensures Step(p).0.currentStream == Some(rest)
    ensures Step(p).0.sData.Some? <==>
              IsSignedData(ch.der.elements) && ch.der.elements[1].SignedDataContent?
    ensures Step(p).0.sData.Some? ==>
              && Step(p).0.sData.value == ch.der.elements[1].certificates
              && Step(p).1 == FetchOutcome(TakeCertificate(ch.der.elements[1].certificates, 0).1)
    ensures !IsSignedData(ch.der.elements) ==>
              && Step(p).0 == ParserState(Some(rest), None, 0)
              && (Step(p).1.Got? <==> ch.der.asCertificate.CertificateStructure?)
              && (Step(p).1.Got? ==> Step(p).1.cert == ch.der.asCertificate.cert)
              && (ch.der.asCertificate == NotACertificate ==> Step(p).1 == Raised(IllegalArgument))
              && (ch.der.asCertificate == Malformed ==> Step(p).1 == Raised(CertificateFailure))
    ensures IsSignedData(ch.der.elements) && !ch.der.elements[1].SignedDataContent? ==>
              Step(p) == (ParserState(Some(rest), None, 0), Raised(BadSignedData))
  {
    assert ([ch] + rest)[1..] == rest;
  }

  /** An active set whose cursor is at its end is cleared by the next read,
      which gives null without touching the stream: it does not go on to
      the next object of the stream. */
  lemma ExhaustedSetYieldsNull(p: ParserState)
    requires p.sData.Some? && p.sDataObjectCount == |p.sData.value|
    ensures Step(p) == (ParserState(p.currentStream, None, 0), Null)
  {
  }

  /** An envelope with an empty certificate set fails: the cursor is bumped
      to 1 before getObjectAt(0) raises. The set stays active, so every later
      read fails the same way, without touching the stream. */
  lemma EmptySetRaises(p: ParserState)
    requires p.sData == Some([]) && p.sDataObjectCount > 0
    ensures Step(p) == (p.(sDataObjectCount := p.sDataObjectCount + 1), Raised(IndexOutOfBounds))
    ensures CursorInvariant(Step(p).0)
  {
  }

  /** Once the stream is at its end and no envelope is active, every read
      gives null and changes nothing, and so does engineReadAll. */
  lemma EndOfStreamIsIdempotent(p: ParserState)
    requires p.sData.None? && p.currentStream == Some([])
    ensures Step(p) == (p, Null)
    ensures Drain(p) == (p, Success([]))
  {
  }

  /** Certificates(s[k..]) skips entries that are not certificates. */
  lemma {:induction false} CertificatesSkip(s: seq<Structure>, k: nat, j: nat)
    requires k <= j <= |s| && Skipped(s, k, j)
    ensures Certificates(s[k..]) == Certificates(s[j..])
    decreases j - k
  {
    if k < j {
      assert s[k..][0] == NotACertificate;
      assert s[k..][1..] == s[k + 1..];
      CertificatesSkip(s, k + 1, j);
    }
  }

  /** The entry that ends a search decides the next step of Certificates(s[j..]). */
  lemma CertificatesAt(s: seq<Structure>, j: nat)
    requires j < |s|
    ensures s[j].CertificateStructure? ==> Certificates(s[j..]) == Prepend(s[j].cert, Certificates(s[j + 1..]))
    ensures s[j] == Malformed ==> Certificates(s[j..]) == Failure(CertificateFailure)
  {
    assert s[j..][1..] == s[j + 1..];
  }

  /** No entry from..to-1 of the set is malformed. */
  ghost predicate NoMalformed(s: seq<Structure>, from: nat, to: nat)
  {
    forall i :: from <= i < to && i < |s| ==> s[i] != Malformed
  }

  /** State in which draining the set s from the cursor k leaves the reader:
      the set is cleared when its last entry is a certificate (the read after
      it finds the cursor at the end), and stays active at its end when the
      last entry is skipped (getCertificate gives null itself). */
  function AfterSet(stream: Option<seq<Chunk>>, s: seq<Structure>, k: nat): ParserState
  {
    if k < |s| && s[|s| - 1] == NotACertificate then ParserState(stream, Some(s), |s|)
    else ParserState(stream, None, 0)
  }

  /** engineReadAll goes on after a read that yields a certificate. */
  lemma DrainAfterGot(p: ParserState)
    requires Step(p).1.Got?
    ensures Drain(p) == (Drain(Step(p).0).0, Prepend(Step(p).1.cert, Drain(Step(p).0).1))
  {
  }

  /** A read with a set whose cursor is inside it is one getCertificate. */
  lemma StepInSet(p: ParserState)
    requires p.sData.Some? && p.sDataObjectCount < |p.sData.value|
    ensures Step(p) == NextFromSet(p)
  {
  }

  /** What engineReadAll does with an active set whose cursor is at k: it
      gives what Certificates says of the entries from k on, and reads
      nothing from the stream. On success the reader ends as AfterSet says;
      on failure the set stays active with the cursor just past the first
      malformed entry. */
  ghost predicate DrainsAsSet(p: ParserState)
    requires p.sData.Some? && p.sDataObjectCount <= |p.sData.value|
  {
    var s, k := p.sData.value, p.sDataObjectCount;
    && Drain(p).1 == Certificates(s[k..])
    && (Drain(p).1.Success? ==> Drain(p).0 == AfterSet(p.currentStream, s, k))
    && (Drain(p).1.Failure? ==>
          exists j :: k <= j < |s| && s[j] == Malformed && NoMalformed(s, k, j)
                      && Drain(p).0 == p.(sDataObjectCount := j + 1))
  }

  /** DrainSet when the read finds a certificate: the rest follows from the
      set after it. */
  lemma DrainSetGot(p: ParserState, c: X509Certificate)
    requires p.sData.Some? && p.sDataObjectCount < |p.sData.value|
    requires TakeCertificate(p.sData.value, p.sDataObjectCount).1 == Fetched(c)
    requires DrainsAsSet(p.(sDataObjectCount := TakeCertificate(p.sData.value, p.sDataObjectCount).0))
    ensures DrainsAsSet(p)
  {
    var s, k := p.sData.value, p.sDataObjectCount;
    var count := TakeCertificate(s, k).0;
    var q := p.(sDataObjectCount := count);
    StepInSet(p);
    assert Step(p) == (q, Got(c));
    DrainAfterGot(p);
    CertificatesSkip(s, k, count - 1);
    CertificatesAt(s, count - 1);
    if Drain(q).1.Failure? {
      var j :| && count <= j < |s| && s[j] == Malformed && NoMalformed(s, count, j)
               && Drain(q).0 == q.(sDataObjectCount := j + 1);
      assert NoMalformed(s, k, j);
    }
  }

  /** DrainSet when the read meets a malformed entry first. */
  lemma DrainSetFailed(p: ParserState)
    requires p.sData.Some? && p.sDataObjectCount < |p.sData.value|
    requires TakeCertificate(p.sData.value, p.sDataObjectCount).1 == EntryFailed
    ensures DrainsAsSet(p)
  {
    var s, k := p.sData.value, p.sDataObjectCount;
    var count := TakeCertificate(s, k).0;
    StepInSet(p);
    assert Step(p) == (p.(sDataObjectCount := count), Raised(CertificateFailure));
    CertificatesSkip(s, k, count - 1);
    CertificatesAt(s, count - 1);
    assert NoMalformed(s, k, count - 1);
    assert Drain(p).0 == p.(sDataObjectCount := (count - 1) + 1);
  }

  /** DrainSet when the rest of the set holds no certificate and no malformed entry. */
  lemma DrainSetExhausted(p: ParserState)
    requires p.sData.Some? && p.sDataObjectCount < |p.sData.value|
    requires TakeCertificate(p.sData.value, p.sDataObjectCount).1 == SetExhausted
    ensures DrainsAsSet(p)
  {
    var s, k := p.sData.value, p.sDataObjectCount;
    StepInSet(p);
    assert Step(p) == (p.(sDataObjectCount := |s|), Null);
    CertificatesSkip(s, k, |s|);
    assert s[|s|..] == [];
  }

  /** engineReadAll with an active set gives what Certificates says of the
      entries from the cursor on, and reads nothing from the stream. On
      success the reader ends as AfterSet says; on failure the set stays
      active with the cursor just past the first malformed entry. */
  lemma {:induction false} DrainSet(p: ParserState)
    requires p.sData.Some? && p.sDataObjectCount <= |p.sData.value|
    ensures Drain(p).1 == Certificates(p.sData.value[p.sDataObjectCount..])
    ensures Drain(p).1.Success? ==> Drain(p).0 == AfterSet(p.currentStream, p.sData.value, p.sDataObjectCount)
    ensures Drain(p).1.Failure? ==>
              exists j :: && p.sDataObjectCount <= j < |p.sData.value|
                          && p.sData.value[j] == Malformed
                          && NoMalformed(p.sData.value, p.sDataObjectCount, j)
                          && Drain(p).0 == p.(sDataObjectCount := j + 1)
    decreases |p.sData.value| - p.sDataObjectCount
  {
    var s, k := p.sData.value, p.sDataObjectCount;
    if k == |s| {
      assert s[k..] == [];
      ExhaustedSetYieldsNull(p);
    } else {
      var (count, fetch) := TakeCertificate(s, k);
      match fetch
      case Fetched(c) =>
        DrainSet(p.(sDataObjectCount := count));
        DrainSetGot(p, c);
      case SetExhausted =>
        DrainSetExhausted(p);
      case EntryFailed =>
        DrainSetFailed(p);
      case IndexOutOfRange =>
        assert false;
    }
  }

  /** engineReadAll on a stream that starts with a SignedData envelope gives
      what Certificates says of the envelope's set (its certificates in
      order, or a failure on a malformed entry) and stops there: it never
      reads the object that follows the envelope. An empty set raises. */
  lemma DrainEnvelope(p: ParserState, ch: Chunk, rest: seq<Chunk>)
    requires p.sData.None? && p.sDataObjectCount == 0
    requires p.currentStream == Some([ch] + rest)
    requires ch.lead == SequenceTag && ch.der.Sequence? && IsSignedData(ch.der.elements)
    requires ch.der.elements[1].SignedDataContent?
    ensures var s := ch.der.elements[1].certificates;
            |s| > 0 ==> && Drain(p).1 == Certificates(s)
                        && Drain(p).0.currentStream == Some(rest)
                        && (Drain(p).1.Success? ==> Drain(p).0 == AfterSet(Some(rest), s, 0))
    ensures var s := ch.der.elements[1].certificates;
            |s| == 0 ==> Drain(p) == (ParserState(Some(rest), Some([]), 1), Failure(IndexOutOfBounds))
  {
    var s := ch.der.elements[1].certificates;
    assert ([ch] + rest)[1..] == rest;
    var q := ParserState(Some(rest), Some(s), 0);
    if |s| > 0 {
      var (count, fetch) := TakeCertificate(s, 0);
      var q' := q.(sDataObjectCount := count);
      assert Step(p) == (q', FetchOutcome(fetch));
      assert Step(q) == Step(p);
      DrainSet(q);
      assert s[0..] == s;
      assert Drain(q) == Drain(p);
    }
  }

  /** A bare certificate object: a SEQUENCE that is not an envelope and reads as a certificate. */
  predicate BareCertificate(ch: Chunk)
  {
    && ch.lead == SequenceTag
    && ch.der.Sequence?
    && !IsSignedData(ch.der.elements)
    && ch.der.asCertificate.CertificateStructure?
  }

  /** The certificates that the bare certificate objects of a stream read as. */
  function BareCertificates(input: seq<Chunk>): seq<X509Certificate>
  {
    if input == [] then []
    else match input[0].der
      case Sequence(_, CertificateStructure(c)) => [c] + BareCertificates(input[1..])
      case _ => BareCertificates(input[1..])
  }

  /** engineReadAll on a stream of bare certificates yields all of them, in
      order, and leaves the stream at its end. */
  lemma {:induction false} DrainBareCertificates(p: ParserState, input: seq<Chunk>)
    requires p.sData.None? && p.sDataObjectCount == 0 && p.currentStream == Some(input)
    requires forall i :: 0 <= i < |input| ==> BareCertificate(input[i])
    ensures Drain(p) == (ParserState(Some([]), None, 0), Success(BareCertificates(input)))
    decreases |input|
  {
    if input != [] {
      var q := p.(currentStream := Some(input[1..]));
      assert Step(p) == (q, Got(input[0].der.asCertificate.cert));
      DrainBareCertificates(q, input[1..]);
    }
  }

  /** Three objects back to back, a bare certificate, an envelope holding one
      certificate and another bare certificate: the first engineReadAll
      yields only the first two, because the exhausted envelope ends it with
      null; a second engineReadAll yields the third. */
  lemma ConcatenatedStream(c1: X509Certificate, c2: X509Certificate, c3: X509Certificate)
    ensures var bare1 := Chunk(SequenceTag, Sequence([OtherElement, OtherElement, OtherElement], CertificateStructure(c1)), NoBlock);
            var envelope := Chunk(SequenceTag, Sequence([ObjectIdentifier(SignedDataOid), SignedDataContent([CertificateStructure(c2)])], NotACertificate), NoBlock);
            var bare3 := Chunk(SequenceTag, Sequence([OtherElement, OtherElement, OtherElement], CertificateStructure(c3)), NoBlock);
            var first := Drain(ParserState(Some([bare1, envelope, bare3]), None, 0));
            && first == (ParserState(Some([bare3]), None, 0), Success([c1, c2]))
            && Drain(first.0) == (ParserState(Some([]), None, 0), Success([c3]))
  {
    var bare1 := Chunk(SequenceTag, Sequence([OtherElement, OtherElement, OtherElement], CertificateStructure(c1)), NoBlock);
    var envelope := Chunk(SequenceTag, Sequence([ObjectIdentifier(SignedDataOid), SignedDataContent([CertificateStructure(c2)])], NotACertificate), NoBlock);
    var bare3 := Chunk(SequenceTag, Sequence([OtherElement, OtherElement, OtherElement], CertificateStructure(c3)), NoBlock);
    var p := ParserState(Some([bare1, envelope, bare3]), None, 0);
    var q := ParserState(Some([envelope, bare3]), None, 0);
    assert [bare1, envelope, bare3][1..] == [envelope, bare3];
    assert [envelope, bare3] == [envelope] + [bare3];
    assert Step(p) == (q, Got(c1));
    DrainAfterGot(p);
    DrainEnvelope(q, envelope, [bare3]);
    assert [CertificateStructure(c2)][1..] == [];
    assert [c2] + [] == [c2];
    assert Certificates([CertificateStructure(c2)]) == Success([c2]);
    assert AfterSet(Some([bare3]), [CertificateStructure(c2)], 0) == ParserState(Some([bare3]), None, 0);
    assert Drain(q) == (ParserState(Some([bare3]), None, 0), Success([c2]));
    assert [c1] + [c2] == [c1, c2];
    assert Drain(p) == (ParserState(Some([bare3]), None, 0), Success([c1, c2]));
    DrainBareCertificates(ParserState(Some([bare3]), None, 0), [bare3]);
    assert BareCertificates([bare3]) == [c3];
  }
}
