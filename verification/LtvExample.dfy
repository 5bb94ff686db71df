/** A small container to which everything proved about embedding evidence applies. */
module LtvExample {
  import opened Prelude
  import opened Der
  import opened Cms
  import opened Ltv
  import opened LtvPreservation
  import opened LtvRoundTrip

  function Version(): (e: Bytes) { Encode(UNIVERSAL, TAG_INTEGER, false, [1]) }

  function Digest(): (e: Bytes) { Encode(UNIVERSAL, TAG_SEQUENCE, true, EncodeOidField(SIGNED_DATA)) }

  function Signature(): (e: Bytes) { Encode(UNIVERSAL, TAG_OCTETS, false, [7]) }

  /** A signer with its five mandatory fields and no attributes. */
  function SignerContents(): (c: Bytes) { Version() + (Version() + (Digest() + (Digest() + (Signature() + [])))) }

  function OneSigner(): (e: Bytes) { Encode(UNIVERSAL, TAG_SEQUENCE, true, SignerContents()) }

  function SignerSet(): (e: Bytes) { Encode(UNIVERSAL, TAG_SET, true, OneSigner()) }

  function Body(): (b: Bytes) { Version() + (Version() + (Version() + SignerSet())) }

  function Container(): (der: Bytes) { BuildContainer(Body()) }

  lemma Small(cls: nat, tag: nat, compound: bool, body: Bytes)
    requires cls < 4 && tag < 31 && |body| < 1000
    ensures 2 <= |Encode(cls, tag, compound, body)| <= |body| + 6
  {
    OctetCount(|body|);
  }

  lemma Sizes()
    ensures |Version()| < 10 && |Digest()| < 40 && |Signature()| < 10 && |SignerContents()| < 110
    ensures |OneSigner()| < 120 && |SignerSet()| < 130 && |Body()| < 160 && |Container()| < 250
    ensures |EncodeOidField(SIGNED_DATA)| < 30
  {
    hide Encode;
    OidSize();
    Small(UNIVERSAL, TAG_INTEGER, false, [1]);
    Small(UNIVERSAL, TAG_SEQUENCE, true, EncodeOidField(SIGNED_DATA));
    Small(UNIVERSAL, TAG_OCTETS, false, [7]);
    Small(UNIVERSAL, TAG_SEQUENCE, true, SignerContents());
    Small(UNIVERSAL, TAG_SET, true, OneSigner());
    var sd := Encode(UNIVERSAL, TAG_SEQUENCE, true, Body());
    Small(UNIVERSAL, TAG_SEQUENCE, true, Body());
    Small(CONTEXT, 0, true, sd);
    Small(UNIVERSAL, TAG_SEQUENCE, true, EncodeOidField(SIGNED_DATA) + Encode(CONTEXT, 0, true, sd));
  }

  lemma OidSize()
    ensures |EncodeOidField(SIGNED_DATA)| < 30
  {
    hide Encode;
    Small(UNIVERSAL, TAG_OID, false, EncodeOid(SIGNED_DATA));
  }

  lemma FieldTaken(tag: nat, compound: bool, body: Bytes, f: Field, x: Bytes)
    requires tag < 31 && |body| < 1000 && !f.OptContext?
    requires Accepts(f, Raw(UNIVERSAL, compound, tag, body, Encode(UNIVERSAL, tag, compound, body)))
    ensures SkipField(Encode(UNIVERSAL, tag, compound, body) + x, f) == Some(x)
  {
    hide Accepts, ParseRaw, Encode;
    EncodeReads(UNIVERSAL, tag, compound, body, x);
  }

  lemma FieldAbsent(tag: nat, compound: bool, body: Bytes, k: nat, x: Bytes)
    requires tag < 31 && |body| < 1000
    ensures var b := Encode(UNIVERSAL, tag, compound, body) + x; SkipField(b, OptContext(k)) == Some(b)
  {
    hide ParseRaw, Encode, ParseHeader, IsElement;
    EncodedIsElement(UNIVERSAL, tag, compound, body);
    HeaderOfElement(Encode(UNIVERSAL, tag, compound, body), x, []);
  }

  lemma SkipThen(b: Bytes, f: Field, fs: seq<Field>, rest: Bytes)
    requires SkipField(b, f) == Some(rest)
    ensures SkipFields(b, [f] + fs) == SkipFields(rest, fs)
  {
    hide SkipField;
    assert ([f] + fs)[1..] == fs;
  }

  lemma DigestAccepted()
    ensures Accepts(Algorithm, Raw(UNIVERSAL, true, TAG_SEQUENCE, EncodeOidField(SIGNED_DATA), Digest()))
  {
    hide ParseOidField, EncodeOidField, Encode, EncodeOid;
    KnownOids();
    OidBounds();
    OidFieldReads(SIGNED_DATA, []);
    assert EncodeOidField(SIGNED_DATA) + [] == EncodeOidField(SIGNED_DATA);
  }

  lemma OidBounds()
    ensures |EncodeOid(SIGNED_DATA)| < 1000 && |EncodeOidField(SIGNED_DATA)| < 1000
  {
    OidSize();
    hide EncodeLength;
  }

  lemma SignerFields()
    ensures SkipFields(SignerContents(), SIGNER_HEAD + [Octets]) == Some([])
  {
    hide Encode, SkipField, SkipFields, Accepts, EncodeOidField;
    OidBounds();
    DigestAccepted();
    VersionAccepted();
    var s := Signature() + [];
    FieldTaken(TAG_OCTETS, false, [7], Octets, []);
    FieldTaken(TAG_SEQUENCE, true, EncodeOidField(SIGNED_DATA), Algorithm, s);
    FieldAbsent(TAG_SEQUENCE, true, EncodeOidField(SIGNED_DATA), 0, s);
    FieldTaken(TAG_SEQUENCE, true, EncodeOidField(SIGNED_DATA), Algorithm, Digest() + s);
    FieldTaken(TAG_INTEGER, false, [1], Any, Digest() + (Digest() + s));
    FieldTaken(TAG_INTEGER, false, [1], Integer, Version() + (Digest() + (Digest() + s)));
    SkipThen(s, Octets, [], []);
    SkipThen(Digest() + s, Algorithm, [Octets], s);
    SkipThen(Digest() + s, OptContext(0), [Algorithm, Octets], Digest() + s);
    SkipThen(Digest() + (Digest() + s), Algorithm, [OptContext(0), Algorithm, Octets], Digest() + s);
    SkipThen(Version() + (Digest() + (Digest() + s)), Any, [Algorithm, OptContext(0), Algorithm, Octets],
      Digest() + (Digest() + s));
    SkipThen(SignerContents(), Integer, [Any, Algorithm, OptContext(0), Algorithm, Octets],
      Version() + (Digest() + (Digest() + s)));
    Unfold([], s);
    HeadList();
  }

  lemma Unfold(b: Bytes, s: Bytes)
    ensures SkipFields(b, []) == Some(b)
  {
  }

  lemma HeadList()
    ensures [Algorithm] + [Octets] == [Algorithm, Octets]
    ensures [OptContext(0)] + [Algorithm, Octets] == [OptContext(0), Algorithm, Octets]
    ensures [Algorithm] + [OptContext(0), Algorithm, Octets] == [Algorithm, OptContext(0), Algorithm, Octets]
    ensures [Any] + [Algorithm, OptContext(0), Algorithm, Octets] == [Any, Algorithm, OptContext(0), Algorithm, Octets]
    ensures [Integer] + [Any, Algorithm, OptContext(0), Algorithm, Octets] == SIGNER_HEAD + [Octets]
    ensures [Octets] + [] == [Octets]
  {
  }

  lemma VersionAccepted()
    ensures Accepts(Integer, Raw(UNIVERSAL, false, TAG_INTEGER, [1], Version()))
    ensures Accepts(Any, Raw(UNIVERSAL, false, TAG_INTEGER, [1], Version()))
    ensures Accepts(Octets, Raw(UNIVERSAL, false, TAG_OCTETS, [7], Signature()))
  {
    hide Encode;
  }

  lemma BodyFields()
    ensures SkipFields(Body(), DATA_FIELDS) == Some(SignerSet())
  {
    hide Encode, SkipField, SkipFields, Accepts, EncodeOidField;
    Sizes();
    VersionAccepted();
    var s := SignerSet();
    assert s + [] == s;
    FieldAbsent(TAG_SET, true, OneSigner(), 1, []);
    FieldAbsent(TAG_SET, true, OneSigner(), 0, []);
    FieldTaken(TAG_INTEGER, false, [1], Any, s);
    FieldTaken(TAG_INTEGER, false, [1], Any, Version() + s);
    FieldTaken(TAG_INTEGER, false, [1], Integer, Version() + (Version() + s));
    SkipThen(s, OptContext(1), [], s);
    SkipThen(s, OptContext(0), [OptContext(1)], s);
    SkipThen(Version() + s, Any, [OptContext(0), OptContext(1)], s);
    SkipThen(Version() + (Version() + s), Any, [Any, OptContext(0), OptContext(1)], Version() + s);
    SkipThen(Body(), Integer, [Any, Any, OptContext(0), OptContext(1)], Version() + (Version() + s));
    Unfold(s, s);
    DataList();
  }

  lemma DataList()
    ensures [OptContext(1)] + [] == [OptContext(1)]
    ensures [OptContext(0)] + [OptContext(1)] == [OptContext(0), OptContext(1)]
    ensures [Any] + [OptContext(0), OptContext(1)] == [Any, OptContext(0), OptContext(1)]
    ensures [Any] + [Any, OptContext(0), OptContext(1)] == [Any, Any, OptContext(0), OptContext(1)]
    ensures [Integer] + [Any, Any, OptContext(0), OptContext(1)] == DATA_FIELDS
  {
  }

  lemma SignerWellFormed()
    ensures WellFormedSigner(OneSigner())
  {
    hide Encode, SkipFields, ParseRaw;
    Sizes();
    EncodedIsElement(UNIVERSAL, TAG_SEQUENCE, true, SignerContents());
    SignerFields();
  }

  lemma BodyWellFormed()
    ensures WellFormedBody(Body())
  {
    hide Encode, SkipFields, ParseRaw, WellFormedSigner, Split, Splits, SignerContents;
    Sizes();
    BodyFields();
    EncodedIsElement(UNIVERSAL, TAG_SEQUENCE, true, SignerContents());
    EncodedIsElement(UNIVERSAL, TAG_SET, true, OneSigner());
    SplitsConcat([OneSigner()]);
    ConcatOne(OneSigner());
    SignerWellFormed();
  }

  /** The container is well formed, hence clean. */
  lemma ContainerWellFormed()
    ensures WellFormed(Container()) && Clean(Container())
  {
    hide Body, WellFormedBody, ParseRaw, ParseContentInfo, BuildContainer, IsElement, Clean;
    Sizes();
    ContainerReads(Body());
    BodyWellFormed();
    WellFormedIsCleanContainer(Container());
  }

  // ---------------------------------------------------------------- embedding something in it

  function Prefix(): (b: Bytes) { Version() + (Version() + Version()) }

  function SomeEvidence(): (ev: Evidence) { Evidence([], [], [Version()]) }

  lemma PrefixSplitsInThree()
    ensures Splits(Prefix()) && |Split(Prefix())| == 3
  {
    hide Encode, ParseRaw, Split, IsElement;
    EncodedIsElement(UNIVERSAL, TAG_INTEGER, false, [1]);
    hide Version;
    SplitsConcat([Version(), Version(), Version()]);
    ThreeParts(Version());
  }

  lemma BodyForm()
    ensures Body() == BuildBody(Prefix(), OneSigner())
  {
    hide Encode, SignerContents;
  }

  lemma ContainerOpens()
    ensures OpenContainer(Container()) == Ok(Opened(Prefix(), [OneSigner()]))
  {
    hide Encode, ParseRaw, Split, Splits, BuildContainer, OpenBody, SignerContents, IsElement, ParseContentInfo,
         SignedDataBody,
         Prefix, BuildBody, Body, Concat;
    Sizes();
    ContainerReads(Body());
    EncodedIsElement(UNIVERSAL, TAG_SEQUENCE, true, SignerContents());
    PrefixSplitsInThree();
    ConcatOne(OneSigner());
    BodyReads(Prefix(), [OneSigner()]);
    BodyForm();
  }

  lemma ConcatCons(e: Bytes, es: seq<Bytes>)
    ensures Concat([e] + es) == e + Concat(es)
  {
    assert ([e] + es)[1..] == es;
  }

  lemma ThreeParts(e: Bytes)
    ensures Concat([e, e, e]) == e + (e + e)
  {
    hide Concat;
    ConcatOne(e);
    ConcatCons(e, [e]);
    ConcatCons(e, [e, e]);
    assert [e] + [e] == [e, e] && [e] + [e, e] == [e, e, e];
  }

  lemma FiveParts(a: Bytes, b: Bytes, c: Bytes, d: Bytes, e: Bytes)
    ensures Concat([a, b, c, d, e]) == a + (b + (c + (d + (e + []))))
  {
    hide Concat;
    ConcatOne(e);
    assert e + [] == e;
    ConcatCons(d, [e]);
    ConcatCons(c, [d, e]);
    ConcatCons(b, [c, d, e]);
    ConcatCons(a, [b, c, d, e]);
    assert [d] + [e] == [d, e] && [c] + [d, e] == [c, d, e] && [b] + [c, d, e] == [b, c, d, e];
    assert [a] + [b, c, d, e] == [a, b, c, d, e];
  }

  /** The signer has no unsigned attributes. */
  lemma SignerBare()
    ensures SplitSigner(SignerContents()) == Ok((SignerContents(), []))
    ensures ParseRaw(OneSigner()) == Some((Raw(UNIVERSAL, true, TAG_SEQUENCE, SignerContents(), OneSigner()), []))
  {
    hide Encode, ParseRaw, Split, IsElement, EncodeOidField, SignerContents;
    Sizes();
    SignatureId();
    SignerSplits();
    EncodedIsElement(UNIVERSAL, TAG_SEQUENCE, true, SignerContents());
  }

  lemma SignatureId()
    ensures |Signature()| > 0 && Signature()[0] == 4
  {
  }

  lemma SignerSplits()
    ensures Split(SignerContents()) == [Version(), Version(), Digest(), Digest(), Signature()]
  {
    hide Encode, ParseRaw, Split, IsElement, EncodeOidField;
    Sizes();
    EncodedIsElement(UNIVERSAL, TAG_INTEGER, false, [1]);
    EncodedIsElement(UNIVERSAL, TAG_SEQUENCE, true, EncodeOidField(SIGNED_DATA));
    EncodedIsElement(UNIVERSAL, TAG_OCTETS, false, [7]);
    hide Version, Digest, Signature;
    SplitsConcat([Version(), Version(), Digest(), Digest(), Signature()]);
    FiveParts(Version(), Version(), Digest(), Digest(), Signature());
  }

  lemma Attributes()
    ensures EvidenceAttributes(SomeEvidence()) == [CertificateAttribute(SomeEvidence())]
    ensures GoodAttributes([CertificateAttribute(SomeEvidence())])
    ensures AddMissing([], [CertificateAttribute(SomeEvidence())]) == [CertificateAttribute(SomeEvidence())]
  {
    hide Encode, GoodAttribute;
    EvidenceAttributesGood(SomeEvidence());
    var a := CertificateAttribute(SomeEvidence());
    assert [a][1..] == [] && [] + [a] == [a];
    AddMissingNone([a]);
  }

  lemma MarshalOne(a: Attribute)
    requires GoodAttribute(a)
    ensures GoodAttributes([a]) && MarshalAttributes([a]) == MarshalAttribute(a)
  {
    hide GoodAttribute, MarshalAttribute;
    assert [a][1..] == [];
    assert MarshalAttributes([]) == [];
  }

  lemma FirstGood(a: Attribute)
    requires GoodAttributes([a])
    ensures GoodAttribute(a)
  {
    assert [a][0] == a;
  }

  lemma AttributeSize()
    requires GoodAttributes([CertificateAttribute(SomeEvidence())])
    ensures |UnsignedElement([CertificateAttribute(SomeEvidence())])| < 200
  {
    var a := CertificateAttribute(SomeEvidence());
    FirstGood(a);
    MarshalOne(a);
    hide Encode, GoodAttribute, GoodAttributes, MarshalAttributes, Version, EncodeOidField, Concat;
    Sizes();
    ConcatOne(Version());
    CertOidSize();
    var items := Encode(UNIVERSAL, TAG_SEQUENCE, true, Version());
    Small(UNIVERSAL, TAG_SEQUENCE, true, Version());
    Small(UNIVERSAL, TAG_SET, true, items);
    var values := Encode(UNIVERSAL, TAG_SET, true, items);
    Small(UNIVERSAL, TAG_SEQUENCE, true, EncodeOidField(CERTIFICATE_VALUES) + values);
    AttributeForm(a, values);
    Small(CONTEXT, 1, true, MarshalAttribute(a));
  }

  lemma AttributeForm(a: Attribute, values: Bytes)
    requires a == CertificateAttribute(SomeEvidence()) && GoodAttribute(a)
    requires values == Encode(UNIVERSAL, TAG_SET, true, Encode(UNIVERSAL, TAG_SEQUENCE, true, Version()))
    ensures MarshalAttribute(a) == Encode(UNIVERSAL, TAG_SEQUENCE, true, EncodeOidField(CERTIFICATE_VALUES) + values)
  {
    ConcatOne(Version());
    hide Encode, Version, EncodeOidField, Concat, GoodAttribute;
  }

  lemma CertOidSize()
    ensures |EncodeOidField(CERTIFICATE_VALUES)| < 40
  {
    hide Encode;
    Small(UNIVERSAL, TAG_OID, false, EncodeOid(CERTIFICATE_VALUES));
  }

  /** Evidence can be embedded in it, the result is far below the limit, and reading it back
      gives the evidence once. */
  lemma ContainerRoundTrip() returns (o: Bytes)
    ensures AddLtv(Container(), SomeEvidence()) == Ok(o) && |o| < CONTAINER_LIMIT
    ensures EmbeddedEvidence(o) == Ok(SomeEvidence())
  {
    hide Encode, ParseRaw, Split, GoodAttributes, SplitSigner, EmbeddedEvidence, SignerContents, WellFormed, Clean,
         OpenContainer,
         EvidenceAttributes, CertificateAttribute, AddMissing, UnsignedElement, IsElement, Version, EncodeOidField;
    ContainerOpens();
    SignerBare();
    Attributes();
    AttributeSize();
    Sizes();
    var a := CertificateAttribute(SomeEvidence());
    var signer := BuildSigner(SignerContents(), [a]);
    Small(UNIVERSAL, TAG_SEQUENCE, true, SignerContents() + UnsignedElement([a]));
    assert SignerWithEvidence(OneSigner(), [a]) == Ok(signer);
    RewriteAll([OneSigner()], [a], [signer]);
    ConcatOne(signer);
    o := BuildContainer(BuildBody(Prefix(), signer));
    BuiltSize(signer);
    ContainerWellFormed();
    Unmarked();
    RoundTripUnannotated(Container(), SomeEvidence(), o);
    assert Times(1, SomeEvidence()) == SomeEvidence() by {
      PlusLaws(SomeEvidence(), SomeEvidence(), SomeEvidence());
      assert Times(0, SomeEvidence()) == NO_EVIDENCE;
    }
  }

  lemma ConcatOne(e: Bytes)
    ensures Concat([e]) == e
  {
    assert [e][1..] == [];
  }

  lemma BuiltSize(signer: Bytes)
    requires |signer| < 400
    ensures |BuildContainer(BuildBody(Prefix(), signer))| < 600
  {
    hide Encode, EncodeOidField;
    Sizes();
    Small(UNIVERSAL, TAG_SET, true, signer);
    var body := BuildBody(Prefix(), signer);
    Small(UNIVERSAL, TAG_SEQUENCE, true, body);
    var sd := Encode(UNIVERSAL, TAG_SEQUENCE, true, body);
    Small(CONTEXT, 0, true, sd);
    Small(UNIVERSAL, TAG_SEQUENCE, true, EncodeOidField(SIGNED_DATA) + Encode(CONTEXT, 0, true, sd));
  }

  lemma Unmarked()
    ensures Unannotated(OneSigner())
    ensures AllElements([Version()]) && AllElements([])
  {
    hide Encode, ParseRaw, SplitSigner;
    SignerBare();
    EncodedIsElement(UNIVERSAL, TAG_INTEGER, false, [1]);
  }
}
