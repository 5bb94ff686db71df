/**
 The octets that embedding writes: identifiers, tags and nesting spelled out, and one
 whole container, octet for octet, before and after.
 */
module LtvWire {
  import opened Prelude
  import opened Der
  import opened Cms
  import opened Ltv
  import opened LtvPreservation
  import opened LtvRoundTrip
  import opened LtvExample

  const SIGNED_DATA_ID: Bytes := [0x06, 0x09, 0x2A, 0x86, 0x48, 0x86, 0xF7, 0x0D, 0x01, 0x07, 0x02]
  const REVOCATION_ID: Bytes := [0x06, 0x0B, 0x2A, 0x86, 0x48, 0x86, 0xF7, 0x0D, 0x01, 0x09, 0x10, 0x02, 0x18]
  const CERTIFICATE_ID: Bytes := [0x06, 0x0B, 0x2A, 0x86, 0x48, 0x86, 0xF7, 0x0D, 0x01, 0x09, 0x10, 0x02, 0x17]

  // ---------------------------------------------------------------- object identifiers

  lemma ArcOctets()
    ensures EncodeBase128(840) == [0x86, 0x48] && EncodeBase128(113549) == [0x86, 0xF7, 0x0D]
  {
    assert HighGroups(6) == [0x86];
    assert HighGroups(887) == HighGroups(6) + [0xF7];
  }

  lemma ArcsCons2(a: nat, rest: seq<nat>)
    ensures EncodeArcs([a] + rest) == EncodeBase128(a) + EncodeArcs(rest)
  {
    hide EncodeBase128;
    assert ([a] + rest)[1..] == rest;
  }

  lemma SmallArc(a: nat)
    requires a < 128
    ensures EncodeBase128(a) == [a]
  {
  }

  lemma NoArcsLeft()
    ensures EncodeArcs([]) == []
  {
  }

  /** The common front of the three identifiers: 1.2.840.113549.1. */
  lemma CommonArcs(rest: seq<nat>)
    ensures EncodeArcs([42, 840, 113549, 1] + rest) == [0x2A, 0x86, 0x48, 0x86, 0xF7, 0x0D, 0x01] + EncodeArcs(rest)
  {
    hide EncodeBase128, EncodeArcs;
    ArcOctets();
    SmallArc(42);
    SmallArc(1);
    ArcsCons2(1, rest);
    ArcsCons2(113549, [1] + rest);
    ArcsCons2(840, [113549] + ([1] + rest));
    ArcsCons2(42, [840] + ([113549] + ([1] + rest)));
    assert [42] + ([840] + ([113549] + ([1] + rest))) == [42, 840, 113549, 1] + rest;
  }

  lemma TwoArcs(a: nat, b: nat)
    requires a < 128 && b < 128
    ensures EncodeArcs([a, b]) == [a, b]
  {
    hide EncodeBase128, EncodeArcs;
    SmallArc(a);
    SmallArc(b);
    NoArcsLeft();
    ArcsCons2(b, []);
    ArcsCons2(a, [b]);
    assert [b] + [] == [b] && [a] + [b] == [a, b];
  }

  lemma FourArcs(a: nat, b: nat, c: nat, d: nat)
    requires a < 128 && b < 128 && c < 128 && d < 128
    ensures EncodeArcs([a, b, c, d]) == [a, b, c, d]
  {
    hide EncodeBase128, EncodeArcs;
    SmallArc(a);
    SmallArc(b);
    TwoArcs(c, d);
    ArcsCons2(b, [c, d]);
    ArcsCons2(a, [b] + [c, d]);
    assert [a] + ([b] + [c, d]) == [a, b, c, d];
  }

  /** The identifiers as they are written: id-signedData, id-aa-ets-revocationValues and
      id-aa-ets-certValues. */
  lemma IdentifierOctets()
    ensures EncodeOidField(SIGNED_DATA) == SIGNED_DATA_ID
    ensures EncodeOidField(REVOCATION_VALUES) == REVOCATION_ID
    ensures EncodeOidField(CERTIFICATE_VALUES) == CERTIFICATE_ID
  {
    hide EncodeOid;
    SignedDataArcs();
    ShortField(SIGNED_DATA_ID[2..]);
    RevocationArcs();
    ShortField(REVOCATION_ID[2..]);
    CertificateArcs();
    ShortField(CERTIFICATE_ID[2..]);
  }

  lemma ShortField(body: Bytes)
    requires |body| < 128
    ensures Encode(UNIVERSAL, TAG_OID, false, body) == [0x06, |body|] + body
  {
  }

  lemma SignedDataArcs()
    ensures EncodeOid(SIGNED_DATA) == [0x2A, 0x86, 0x48, 0x86, 0xF7, 0x0D, 0x01, 0x07, 0x02]
  {
    hide EncodeArcs;
    CommonArcs([7, 2]);
    TwoArcs(7, 2);
    assert ToArcs(SIGNED_DATA) == [42, 840, 113549, 1] + [7, 2];
  }

  lemma RevocationArcs()
    ensures EncodeOid(REVOCATION_VALUES) == [0x2A, 0x86, 0x48, 0x86, 0xF7, 0x0D, 0x01, 0x09, 0x10, 0x02, 0x18]
  {
    hide EncodeArcs;
    CommonArcs([9, 16, 2, 24]);
    FourArcs(9, 16, 2, 24);
    assert ToArcs(REVOCATION_VALUES) == [42, 840, 113549, 1] + [9, 16, 2, 24];
  }

  lemma CertificateArcs()
    ensures EncodeOid(CERTIFICATE_VALUES) == [0x2A, 0x86, 0x48, 0x86, 0xF7, 0x0D, 0x01, 0x09, 0x10, 0x02, 0x17]
  {
    hide EncodeArcs;
    CommonArcs([9, 16, 2, 23]);
    FourArcs(9, 16, 2, 23);
    assert ToArcs(CERTIFICATE_VALUES) == [42, 840, 113549, 1] + [9, 16, 2, 23];
  }

  // ---------------------------------------------------------------- the attributes

  /** One identifier octet, the length, the contents. */
  function Tlv(id: byte, body: Bytes): (r: Bytes) { [id] + EncodeLength(|body|) + body }

  /** SEQUENCE is 30, SET is 31, and the constructed context tags 0 and 1 are A0 and A1. */
  lemma TagOctets(body: Bytes)
    ensures Encode(UNIVERSAL, TAG_SEQUENCE, true, body) == Tlv(0x30, body)
    ensures Encode(UNIVERSAL, TAG_SET, true, body) == Tlv(0x31, body)
    ensures Encode(CONTEXT, 0, true, body) == Tlv(0xA0, body) && Encode(CONTEXT, 1, true, body) == Tlv(0xA1, body)
    ensures Encode(UNIVERSAL, TAG_INTEGER, false, body) == Tlv(0x02, body)
    ensures Encode(UNIVERSAL, TAG_OCTETS, false, body) == Tlv(0x04, body)
  {
  }

  /** The revocation-values attribute: lists under A0, then responses under A1. */
  function RevocationElement(crls: seq<Bytes>, ocsp: seq<Bytes>): (r: Bytes) {
    Tlv(0x30, REVOCATION_ID + Tlv(0x31, Tlv(0x30, Under(0xA0, crls) + Under(0xA1, ocsp))))
  }

  function Under(id: byte, items: seq<Bytes>): (r: Bytes) {
    if |items| == 0 then [] else Tlv(id, Tlv(0x30, Concat(items)))
  }

  function CertificateElement(certs: seq<Bytes>): (r: Bytes) {
    Tlv(0x30, CERTIFICATE_ID + Tlv(0x31, Tlv(0x30, Concat(certs))))
  }

  lemma AttributeOctets(ev: Evidence)
    ensures GoodAttribute(RevocationAttribute(ev)) && GoodAttribute(CertificateAttribute(ev))
    ensures MarshalAttribute(RevocationAttribute(ev)) == RevocationElement(ev.crls, ev.ocsp)
    ensures MarshalAttribute(CertificateAttribute(ev)) == CertificateElement(ev.certs)
  {
    hide Encode, Tlv, WireOid, Concat, EncodeOidField;
    KnownOids();
    IdentifierOctets();
    TagOctets(Concat(ev.crls));
    TagOctets(Concat(ev.ocsp));
    TagOctets(Concat(ev.certs));
    TagOctets(Tlv(0x30, Concat(ev.crls)));
    TagOctets(Tlv(0x30, Concat(ev.ocsp)));
    TagOctets(Tlv(0x30, Concat(ev.certs)));
    var lists := TaggedList(0, ev.crls) + TaggedList(1, ev.ocsp);
    assert lists == Under(0xA0, ev.crls) + Under(0xA1, ev.ocsp);
    TagOctets(lists);
    TagOctets(Tlv(0x30, lists));
    TagOctets(REVOCATION_ID + Tlv(0x31, Tlv(0x30, lists)));
    TagOctets(CERTIFICATE_ID + Tlv(0x31, Tlv(0x30, Concat(ev.certs))));
  }

  /** What a signer gets: the kinds of evidence there are and that it lacks. */
  function NewElements(e: Bytes, ev: Evidence): (r: seq<Bytes>) {
    (if (|ev.crls| > 0 || |ev.ocsp| > 0) && !HasAttribute(UnsignedAttributes(e), REVOCATION_VALUES)
     then [RevocationElement(ev.crls, ev.ocsp)] else [])
    + (if |ev.certs| > 0 && !HasAttribute(UnsignedAttributes(e), CERTIFICATE_VALUES)
       then [CertificateElement(ev.certs)] else [])
  }

  lemma AddMissingParts(list: seq<Attribute>, ev: Evidence)
    requires GoodAttributes(list)
    ensures var rev, cert := RevocationAttribute(ev), CertificateAttribute(ev);
      AddMissing(list, EvidenceAttributes(ev)) == list
        + (if (|ev.crls| > 0 || |ev.ocsp| > 0) && !HasAttribute(list, REVOCATION_VALUES) then [rev] else [])
        + (if |ev.certs| > 0 && !HasAttribute(list, CERTIFICATE_VALUES) then [cert] else [])
  {
    hide GoodAttributes, AddMissing, HasAttribute, RevocationAttribute, CertificateAttribute;
    KnownOids();
    EvidenceTypes(ev);
    var rev, cert := RevocationAttribute(ev), CertificateAttribute(ev);
    var later := if |ev.certs| > 0 then [cert] else [];
    if |ev.crls| > 0 || |ev.ocsp| > 0 {
      assert EvidenceAttributes(ev) == [rev] + later;
      AddMissingStep(list, rev, later);
      if HasAttribute(list, REVOCATION_VALUES) {
        CertificateMissing(list, cert, later);
      } else {
        OtherType(list, rev, CERTIFICATE_VALUES);
        CertificateMissing(list + [rev], cert, later);
      }
    } else {
      assert EvidenceAttributes(ev) == later;
      CertificateMissing(list, cert, later);
    }
  }

  lemma OtherType(list: seq<Attribute>, a: Attribute, oid: Oid)
    requires a.oid != oid
    ensures HasAttribute(list + [a], oid) <==> HasAttribute(list, oid)
  {
    var all := list + [a];
    if i :| 0 <= i < |list| && list[i].oid == oid { assert all[i].oid == oid; }
    if i :| 0 <= i < |all| && all[i].oid == oid { assert i < |list| && list[i].oid == oid; }
  }

  lemma CertificateMissing(list: seq<Attribute>, cert: Attribute, later: seq<Attribute>)
    requires cert.oid == CERTIFICATE_VALUES && (later == [] || later == [cert])
    ensures AddMissing(list, later)
         == list + (if later != [] && !HasAttribute(list, CERTIFICATE_VALUES) then [cert] else [])
  {
    hide GoodAttributes, AddMissing, HasAttribute;
    if later == [] {
      AddMissingNone(list);
    } else {
      assert [cert] + [] == [cert];
      AddMissingStep(list, cert, []);
      AddMissingNone(list);
      AddMissingNone(list + [cert]);
    }
    assert list + [] == list;
  }

  lemma {:induction false} MarshalAppend(a: seq<Attribute>, b: seq<Attribute>)
    requires GoodAttributes(a) && GoodAttributes(b)
    ensures GoodAttributes(a + b) && MarshalAttributes(a + b) == MarshalAttributes(a) + MarshalAttributes(b)
  {
    hide MarshalAttribute, GoodAttribute;
    if |a| == 0 {
      assert a + b == b;
    } else {
      assert (a + b)[1..] == a[1..] + b;
      MarshalAppend(a[1..], b);
    }
  }

  /** The unsigned attribute elements of a rewritten signer are those it had, then the new ones. */
  lemma SignerOctets(e: Bytes, ev: Evidence, e': Bytes)
    requires CleanSigner(e) && GoodAttributes(EvidenceAttributes(ev)) && |e'| < LENGTH_LIMIT
    requires SignerWithEvidence(e, EvidenceAttributes(ev)) == Ok(e')
    ensures var old_, new_ := AttributeElements(e), AttributeElements(e');
      |new_| == |old_| + |NewElements(e, ev)| && new_[|old_|..] == NewElements(e, ev)
  {
    hide ParseRaw, Split, Splits, GoodAttributes, SplitSigner, AddMissing, SealedAll, MarshalAttributes,
         UnsignedContents,
         ParseAttributes, IsElement, MarshalAttribute, GoodAttribute, HasAttribute, RevocationAttribute,
         CertificateAttribute, RevocationElement, CertificateElement, EvidenceAttributes, UnsignedElement;
    SignerRewritten(e, EvidenceAttributes(ev), e');
    var c := ParseRaw(e).value.0.bytes;
    var (body, existing) := SplitSigner(c).value;
    var list := AddMissing(existing, EvidenceAttributes(ev));
    ContentsParse(c, body, existing);
    SignerBodySplits(c, body, existing);
    EncodedIsElement(UNIVERSAL, TAG_SEQUENCE, true, body + UnsignedElement(list));
    ContentsBuilt(body, list);
    AttributePieces(UnsignedContents(c), existing);
    MarshalPieces(list);
    AddMissingParts(existing, ev);
    AttributeOctets(ev);
    NewPieces(e, ev, existing, list);
  }

  lemma NewPieces(e: Bytes, ev: Evidence, existing: seq<Attribute>, list: seq<Attribute>)
    requires existing == UnsignedAttributes(e) && GoodAttributes(list)
    requires GoodAttribute(RevocationAttribute(ev)) && GoodAttribute(CertificateAttribute(ev))
    requires MarshalAttribute(RevocationAttribute(ev)) == RevocationElement(ev.crls, ev.ocsp)
    requires MarshalAttribute(CertificateAttribute(ev)) == CertificateElement(ev.certs)
    requires list == existing
      + (if (|ev.crls| > 0 || |ev.ocsp| > 0) && !HasAttribute(existing, REVOCATION_VALUES)
         then [RevocationAttribute(ev)] else [])
      + (if |ev.certs| > 0 && !HasAttribute(existing, CERTIFICATE_VALUES) then [CertificateAttribute(ev)] else [])
    ensures |list| == |existing| + |NewElements(e, ev)|
    ensures forall k :: 0 <= k < |NewElements(e, ev)| ==>
      GoodAttribute(list[|existing| + k]) && MarshalAttribute(list[|existing| + k]) == NewElements(e, ev)[k]
  {
    hide MarshalAttribute, GoodAttribute, GoodAttributes, HasAttribute, RevocationAttribute, CertificateAttribute,
         RevocationElement, CertificateElement, UnsignedAttributes;
  }

  /** In octets: every signer of a rewritten container carries, after the attributes it had, its
      lists and responses under id-aa-ets-revocationValues and its certificates under
      id-aa-ets-certValues, each kind that it lacked. */
  lemma AddLtvOctets(der: Bytes, ev: Evidence, o: Bytes)
    requires Clean(der) && AddLtv(der, ev) == Ok(o) && |o| < CONTAINER_LIMIT
    ensures OpenContainer(o).Ok? && |OpenContainer(o).value.signers| == |OpenContainer(der).value.signers|
    ensures forall i :: 0 <= i < |OpenContainer(der).value.signers| ==>
      var e, e' := OpenContainer(der).value.signers[i], OpenContainer(o).value.signers[i];
      var n := |AttributeElements(e)|;
      n <= |AttributeElements(e')| && AttributeElements(e')[n..] == NewElements(e, ev)
  {
    hide SignerWithEvidence, EvidenceAttributes, SignedDataBody, ParseRaw, Split, Splits, GoodAttributes,
         SignedPart, UnsignedAttributes, BuildContainer, OpenBody, Concat, AddMissing, SealedAll, AttributeElements,
         NewElements;
    var before := OpenContainer(der).value;
    var es := Rewritten(der, ev, o);
    forall i | 0 <= i < |es|
      ensures CleanSigner(es[i])
      ensures |AttributeElements(before.signers[i])| <= |AttributeElements(es[i])|
      ensures AttributeElements(es[i])[|AttributeElements(before.signers[i])|..] == NewElements(before.signers[i], ev)
    {
      SignerRewritten(before.signers[i], EvidenceAttributes(ev), es[i]);
      SignerOctets(before.signers[i], ev, es[i]);
    }
    PrefixSplits(der);
    BodyReads(before.prefix, es);
    ContainerReads(BuildBody(before.prefix, Concat(es)));
  }
}
