/** One container, octet for octet, before and after evidence is embedded in it. */
module LtvOctets {
  import opened Prelude
  import opened Der
  import opened Cms
  import opened Ltv
  import opened LtvPreservation
  import opened LtvRoundTrip
  import opened LtvExample
  import opened LtvWire

  /** A SignerInfo without unsigned attributes: its contents. */
  const SIGNER: Bytes :=
    [0x02, 0x01, 0x01, 0x02, 0x01, 0x01]
    + [0x30, 0x0B] + SIGNED_DATA_ID
    + [0x30, 0x0B] + SIGNED_DATA_ID
    + [0x04, 0x01, 0x07]

  /** A SignedData container with that one signer. */
  const BEFORE: Bytes :=
    [0x30, 0x3F] + SIGNED_DATA_ID + [0xA0, 0x32, 0x30, 0x30]
    + [0x02, 0x01, 0x01, 0x02, 0x01, 0x01, 0x02, 0x01, 0x01]
    + [0x31, 0x25, 0x30, 0x23] + SIGNER

  /** One response, one revocation list and one certificate, each a tiny element. */
  const RESPONSE: Bytes := [0x04, 0x01, 0x01]
  const LIST: Bytes := [0x04, 0x01, 0x02]
  const CHAIN: Bytes := [0x02, 0x01, 0x01]

  const EVIDENCE := Evidence([RESPONSE], [LIST], [CHAIN])

  /** Attribute id-aa-ets-revocationValues: the list under A0, then the response under A1. */
  const REVOCATION: Bytes := [
    0x30, 0x1F] + REVOCATION_ID + [0x31, 0x10, 0x30, 0x0E,
    0xA0, 0x05, 0x30, 0x03, 0x04, 0x01, 0x02, 0xA1, 0x05, 0x30, 0x03, 0x04, 0x01, 0x01]

  /** Attribute id-aa-ets-certValues. */
  const CERTIFICATE: Bytes := [
    0x30, 0x14] + CERTIFICATE_ID + [0x31, 0x05, 0x30, 0x03, 0x02, 0x01, 0x01]

  /** The container with the evidence in it. */
  const AFTER: Bytes :=
    [0x30, 0x78] + SIGNED_DATA_ID + [0xA0, 0x6B, 0x30, 0x69]
    + [0x02, 0x01, 0x01, 0x02, 0x01, 0x01, 0x02, 0x01, 0x01]
    + [0x31, 0x5E, 0x30, 0x5C] + (SIGNER + ([0xA1, 0x37] + (REVOCATION + CERTIFICATE)))

  lemma Short(id: byte, body: Bytes)
    requires |body| < 128
    ensures Tlv(id, body) == [id, |body|] + body
  {
  }

  lemma Pieces()
    ensures Version() == [0x02, 0x01, 0x01] && Signature() == [0x04, 0x01, 0x07]
    ensures Digest() == [0x30, 0x0B] + SIGNED_DATA_ID && |SIGNED_DATA_ID| == 11
  {
    hide Encode, Tlv, EncodeOidField;
    IdentifierOctets();
    TagOctets([1]);
    TagOctets([7]);
    TagOctets(SIGNED_DATA_ID);
    Short(0x02, [1]);
    Short(0x04, [7]);
    Short(0x30, SIGNED_DATA_ID);
  }

  lemma SignerPieces()
    ensures SignerContents() == SIGNER && |SIGNER| == 35
  {
    Pieces();
    hide Version, Digest, Signature;
    assert Signature() + [] == Signature();
  }

  /** The shape of a container around a signer set, while lengths stay below 128. */
  lemma Shape(signer: Bytes)
    requires |signer| < 100
    ensures BuildContainer(BuildBody(Prefix(), Encode(UNIVERSAL, TAG_SEQUENCE, true, signer))) ==
      [0x30, |signer| + 28] + SIGNED_DATA_ID + [0xA0, |signer| + 15, 0x30, |signer| + 13]
      + [0x02, 0x01, 0x01, 0x02, 0x01, 0x01, 0x02, 0x01, 0x01] + [0x31, |signer| + 2, 0x30, |signer|] + signer
  {
    hide Encode, Tlv, EncodeOidField, Version;
    Pieces();
    IdentifierOctets();
    TagOctets(signer);
    Short(0x30, signer);
    var one := [0x30, |signer|] + signer;
    TagOctets(one);
    Short(0x31, one);
    var vs := [0x02, 0x01, 0x01, 0x02, 0x01, 0x01, 0x02, 0x01, 0x01];
    assert Prefix() == vs;
    var body := vs + ([0x31, |one|] + one);
    TagOctets(body);
    Short(0x30, body);
    var sd := [0x30, |body|] + body;
    TagOctets(sd);
    Short(0xA0, sd);
    var contents := SIGNED_DATA_ID + ([0xA0, |sd|] + sd);
    TagOctets(contents);
    Short(0x30, contents);
  }

  lemma BeforeOctets()
    ensures Container() == BEFORE
  {
    hide Encode, BuildContainer, SignerContents;
    SignerPieces();
    BodyForm();
    Shape(SIGNER);
  }

  lemma AttributePiecesOctets()
    ensures RevocationElement(EVIDENCE.crls, EVIDENCE.ocsp) == REVOCATION && |REVOCATION| == 33
    ensures CertificateElement(EVIDENCE.certs) == CERTIFICATE && |CERTIFICATE| == 22
  {
    hide Tlv, Concat;
    ConcatOne(RESPONSE);
    ConcatOne(LIST);
    ConcatOne(CHAIN);
    Short(0x30, RESPONSE);
    Short(0x30, LIST);
    Short(0x30, CHAIN);
    Short(0xA0, [0x30, 0x03] + LIST);
    Short(0xA1, [0x30, 0x03] + RESPONSE);
    var lists := ([0xA0, 0x05] + ([0x30, 0x03] + LIST)) + ([0xA1, 0x05] + ([0x30, 0x03] + RESPONSE));
    assert Under(0xA0, EVIDENCE.crls) + Under(0xA1, EVIDENCE.ocsp) == lists;
    Short(0x30, lists);
    Short(0x31, [0x30, 0x0E] + lists);
    Short(0x30, REVOCATION_ID + ([0x31, 0x10] + ([0x30, 0x0E] + lists)));
    Short(0x31, [0x30, 0x03] + CHAIN);
    Short(0x30, CERTIFICATE_ID + ([0x31, 0x05] + ([0x30, 0x03] + CHAIN)));
  }

  lemma BothMissing()
    ensures GoodAttributes(EvidenceAttributes(EVIDENCE))
    ensures AddMissing([], EvidenceAttributes(EVIDENCE)) == EvidenceAttributes(EVIDENCE)
    ensures MarshalAttributes(EvidenceAttributes(EVIDENCE)) == REVOCATION + CERTIFICATE
  {
    hide AddMissing, RevocationAttribute, CertificateAttribute, MarshalAttribute, GoodAttribute;
    EvidenceAttributesGood(EVIDENCE);
    AddMissingParts([], EVIDENCE);
    AttributeOctets(EVIDENCE);
    AttributePiecesOctets();
    var rev, cert := RevocationAttribute(EVIDENCE), CertificateAttribute(EVIDENCE);
    assert EvidenceAttributes(EVIDENCE) == [rev, cert];
    assert [rev] + [cert] == [rev, cert];
    MarshalOne(rev);
    MarshalOne(cert);
    MarshalAppend([rev], [cert]);
  }

  /** Embedding writes exactly these octets, and reading them gives the three items back. */
  lemma OctetForOctet()
    ensures AddLtv(BEFORE, EVIDENCE) == Ok(AFTER) && EmbeddedEvidence(AFTER) == Ok(EVIDENCE)
  {
    hide Encode, ParseRaw, Split, GoodAttributes, SplitSigner, EmbeddedEvidence, SignerContents, WellFormed, Clean,
         OpenContainer, EvidenceAttributes, AddMissing, IsElement, Version, EncodeOidField, BuildContainer, BuildBody;
    BeforeOctets();
    ContainerOpens();
    SignerBare();
    BothMissing();
    SignerPieces();
    var attrs := EvidenceAttributes(EVIDENCE);
    var signer := BuildSigner(SIGNER, attrs);
    AttributePiecesOctets();
    TagOctets(REVOCATION + CERTIFICATE);
    Short(0xA1, REVOCATION + CERTIFICATE);
    RewriteAll([OneSigner()], attrs, [signer]);
    ConcatOne(signer);
    Shape(SIGNER + ([0xA1, 0x37] + (REVOCATION + CERTIFICATE)));
    ContainerWellFormed();
    ReadBack();
  }

  lemma ReadBack()
    requires AddLtv(Container(), EVIDENCE) == Ok(AFTER) && WellFormed(Container())
    ensures EmbeddedEvidence(AFTER) == Ok(EVIDENCE)
  {
    hide AddLtv, WellFormed, EmbeddedEvidence, OpenContainer, ParseRaw, IsElement;
    ContainerOpens();
    Unmarked();
    ItemsAreElements();
    RoundTripUnannotated(Container(), EVIDENCE, AFTER);
    PlusLaws(EVIDENCE, EVIDENCE, EVIDENCE);
    assert Times(0, EVIDENCE) == NO_EVIDENCE;
    assert Times(1, EVIDENCE) == EVIDENCE;
  }

  lemma ItemsAreElements()
    ensures AllElements(EVIDENCE.crls) && AllElements(EVIDENCE.ocsp) && AllElements(EVIDENCE.certs)
  {
    hide Encode, ParseRaw, Tlv, IsElement;
    TagOctets([1]);
    TagOctets([2]);
    Short(0x02, [1]);
    Short(0x04, [1]);
    Short(0x04, [2]);
    EncodedIsElement(UNIVERSAL, TAG_INTEGER, false, [1]);
    EncodedIsElement(UNIVERSAL, TAG_OCTETS, false, [1]);
    EncodedIsElement(UNIVERSAL, TAG_OCTETS, false, [2]);
    assert Tlv(0x02, [1]) == CHAIN && Tlv(0x04, [1]) == RESPONSE && Tlv(0x04, [2]) == LIST;
  }
}
