/**
 What rewriting a container keeps: every octet in front of the signer set, every
 signed part of every signer, and the unsigned attributes that were there. A
 second pass changes nothing.
 */
module LtvPreservation {
  import opened Prelude
  import opened Der
  import opened Cms
  import opened Ltv

  // ---------------------------------------------------------------- reading what was built

  lemma EncodedIsElement(cls: nat, tag: nat, compound: bool, body: Bytes)
    requires cls < 4 && tag < 31 && |body| < LENGTH_LIMIT
    ensures var e := Encode(cls, tag, compound, body);
            IsElement(e) && ParseRaw(e) == Some((Raw(cls, compound, tag, body, e), []))
  {
    hide ParseRaw;
    var e := Encode(cls, tag, compound, body);
    EncodeReads(cls, tag, compound, body, []);
    assert e + [] == e;
  }

  lemma ExplicitReads(k: nat, body: Bytes)
    requires k < 31 && 0 < |body| < LENGTH_LIMIT
    ensures Explicit(Encode(CONTEXT, k, true, body), k) == Some((body, []))
  {
    hide ParseRaw, ParseHeader;
    var e := Encode(CONTEXT, k, true, body);
    EncodedIsElement(CONTEXT, k, true, body);
    var h, rest := RawElim(e, Raw(CONTEXT, true, k, body, e), []);
  }

  /** The longest container, six header octets included, that can be read again. */
  const CONTAINER_LIMIT := LENGTH_LIMIT + 6

  function ContainerContents(body: Bytes): (r: Bytes)
    ensures BuildContainer(body) == Encode(UNIVERSAL, TAG_SEQUENCE, true, r)
  {
    EncodeOidField(SIGNED_DATA) + Encode(CONTEXT, 0, true, Encode(UNIVERSAL, TAG_SEQUENCE, true, body))
  }

  lemma ContentsBound(c: Bytes)
    ensures |Encode(UNIVERSAL, TAG_SEQUENCE, true, c)| < CONTAINER_LIMIT <==> |c| < LENGTH_LIMIT
  {
    hide LengthOctets;
    if |c| < LENGTH_LIMIT {
      OctetCount(|c|);
    } else {
      OctetsDef(|c|); OctetsDef(|c| / 256); OctetsDef(|c| / 256 / 256); OctetsDef(|c| / 256 / 256 / 256);
    }
  }

  /** A container that was built can be read again if and only if it is below the limit. */
  lemma ReadableIff(body: Bytes)
    requires |LengthOctets(|ContainerContents(body)|)| < 128
    ensures ParseContentInfo(BuildContainer(body)).Some? <==> |BuildContainer(body)| < CONTAINER_LIMIT
  {
    hide ParseRaw, ContainerContents, EncodeOid, ParseOidField, BuildContainer;
    var o, c := BuildContainer(body), ContainerContents(body);
    ContentsBound(c);
    if |c| < LENGTH_LIMIT {
      ContainerReads(body);
    } else {
      EncodeTooLarge(UNIVERSAL, TAG_SEQUENCE, true, c, []);
      assert o + [] == o;
    }
  }

  lemma ContainerReads(body: Bytes)
    requires |BuildContainer(body)| < CONTAINER_LIMIT
    ensures SignedDataBody(BuildContainer(body)) == Ok(body)
    ensures ParseContentInfo(BuildContainer(body)).Some?
    ensures var (oid, content) := ParseContentInfo(BuildContainer(body)).value;
      && oid == SIGNED_DATA && ParseRaw(content).Some?
      && ParseRaw(content).value.0.bytes == body && IsUniversal(ParseRaw(content).value.0, TAG_SEQUENCE, true)
  {
    hide ParseRaw, Explicit, EncodeOid, ParseOidField;
    KnownOids();
    ContentsBound(ContainerContents(body));
    var sd := Encode(UNIVERSAL, TAG_SEQUENCE, true, body);
    var content := Encode(CONTEXT, 0, true, sd);
    EncodedIsElement(UNIVERSAL, TAG_SEQUENCE, true, EncodeOidField(SIGNED_DATA) + content);
    OidFieldReads(SIGNED_DATA, content);
    ExplicitReads(0, sd);
    EncodedIsElement(UNIVERSAL, TAG_SEQUENCE, true, body);
  }

  lemma SplitSnoc(p: Bytes, e: Bytes)
    requires Splits(p) && IsElement(e)
    ensures Split(p + e) == Split(p) + [e] && Splits(p + e)
  {
    hide ParseRaw, IsElement, Split;
    SplitPieces(p);
    SplitConcat(Split(p), e);
    SplitsConcat([e]);
    assert Concat([e]) == e;
    ConcatSnoc(Split(p), e);
  }

  lemma BodyReads(prefix: Bytes, es: seq<Bytes>)
    requires Splits(prefix) && |Split(prefix)| >= 3 && |es| > 0
    requires forall e :: e in es ==> IsElement(e)
    requires |Concat(es)| < LENGTH_LIMIT
    ensures OpenBody(BuildBody(prefix, Concat(es))) == Ok(Opened(prefix, es))
    ensures Splits(BuildBody(prefix, Concat(es)))
  {
    hide ParseRaw, IsElement, Split, Concat, Encode, Splits;
    var set_ := Encode(UNIVERSAL, TAG_SET, true, Concat(es));
    EncodedIsElement(UNIVERSAL, TAG_SET, true, Concat(es));
    SplitSnoc(prefix, set_);
    SplitsConcat(es);
    assert (prefix + set_)[..|prefix|] == prefix;
  }

  /** Rewriting and reopening a signer finds its old octets and the extended attribute list. */
  lemma SignerReads(body: Bytes, list: seq<Attribute>)
    requires Splits(body) && |Split(body)| >= 4 && GoodAttributes(list)
    requires |UnsignedElement(list)| < LENGTH_LIMIT
    ensures SplitSigner(body + UnsignedElement(list)) == Ok((body, SealedAll(list)))
    ensures Splits(body + UnsignedElement(list))
  {
    hide ParseRaw, IsElement, Split, Splits, ParseAttributes, MarshalAttributes, GoodAttributes;
    var u := UnsignedElement(list);
    EncodedIsElement(CONTEXT, 1, true, MarshalAttributes(list));
    SplitSnoc(body, u);
    AttributesRead(list);
    assert (body + u)[..|body|] == body;
    assert u[0] == UNSIGNED_ID;
  }

  // ---------------------------------------------------------------- clean containers

  /** Splits as a whole: dropping the last element leaves something that splits. */
  lemma DropLast(b: Bytes)
    requires Splits(b) && |Split(b)| > 0
    ensures var es := Split(b); var last := es[|es| - 1];
            && IsElement(last) && |last| <= |b| && b == b[..|b| - |last|] + last
            && Split(b[..|b| - |last|]) == es[..|es| - 1] && Splits(b[..|b| - |last|])
  {
    hide ParseRaw, IsElement, Split;
    var es := Split(b);
    var front, last := es[..|es| - 1], es[|es| - 1];
    SplitPieces(b);
    assert es == front + [last];
    ConcatSnoc(front, last);
    assert b == Concat(front) + last;
    assert b[..|b| - |last|] == Concat(front);
    SplitsConcat(front);
  }

  ghost predicate CleanSigner(e: Bytes) {
    IsElement(e) && Splits(ParseRaw(e).value.0.bytes)
  }

  /** The SignedData body, its signer set and every signer are made of whole elements. */
  ghost predicate Clean(der: Bytes) {
    && SignedDataBody(der).Ok? && OpenContainer(der).Ok?
    && Splits(SignedDataBody(der).value)
    && forall e :: e in OpenContainer(der).value.signers ==> CleanSigner(e)
  }

  /** The octets copied in front of the new signer set are exactly the elements before
      the old one, if and only if the body splits without remainder. */
  lemma PrefixExact(body: Bytes)
    requires OpenBody(body).Ok?
    ensures var es := Split(body); var n := |es| - 1;
            OpenBody(body).value.prefix == Concat(es[..n]) <==> Splits(body)
  {
    hide ParseRaw, IsElement, Split, Concat;
    var es := Split(body);
    var front, last := es[..|es| - 1], es[|es| - 1];
    SplitPieces(body);
    assert es == front + [last];
    ConcatSnoc(front, last);
    var prefix := body[..|body| - |last|];
    assert OpenBody(body).value.prefix == prefix;
    if prefix == Concat(front) {
      assert |Concat(es)| == |body|;
      assert body[..|body|] == body;
    }
    if Splits(body) {
      assert body == Concat(front) + last;
    }
  }

  lemma PrefixSplits(der: Bytes)
    requires Clean(der)
    ensures Splits(OpenContainer(der).value.prefix) && |Split(OpenContainer(der).value.prefix)| >= 3
  {
    hide ParseRaw, IsElement, Split, SignedDataBody;
    DropLast(SignedDataBody(der).value);
  }

  lemma SignerBodySplits(c: Bytes, body: Bytes, list: seq<Attribute>)
    requires Splits(c) && SplitSigner(c) == Ok((body, list))
    ensures Splits(body) && |Split(body)| >= 4
  {
    hide ParseRaw, IsElement, Split, ParseAttributes, Splits;
    if |c| > 0 { DropLast(c); }
  }

  // ---------------------------------------------------------------- one signer, rewritten

  /** The octets of a signer in front of its unsigned attributes: everything signed. */
  function SignedPart(e: Bytes): (r: Option<Bytes>) {
    match ParseRaw(e)
    case None => None
    case Some((si, _)) => match SplitSigner(si.bytes) case Err(_) => None case Ok((body, _)) => Some(body)
  }

  function UnsignedAttributes(e: Bytes): (r: seq<Attribute>) {
    match ParseRaw(e)
    case None => []
    case Some((si, _)) => match SplitSigner(si.bytes) case Err(_) => [] case Ok((_, list)) => list
  }

  lemma SignerRewritten(e: Bytes, attrs: seq<Attribute>, e': Bytes)
    requires CleanSigner(e) && GoodAttributes(attrs) && SignerWithEvidence(e, attrs) == Ok(e') && |e'| < LENGTH_LIMIT
    ensures CleanSigner(e') && SignedPart(e').Some? && SignedPart(e') == SignedPart(e)
    ensures GoodAttributes(UnsignedAttributes(e)) && GoodAttributes(AddMissing(UnsignedAttributes(e), attrs))
    ensures UnsignedAttributes(e') == SealedAll(AddMissing(UnsignedAttributes(e), attrs))
    ensures e' == BuildSigner(SignedPart(e).value, AddMissing(UnsignedAttributes(e), attrs))
    ensures |MarshalAttributes(AddMissing(UnsignedAttributes(e), attrs))| < LENGTH_LIMIT
  {
    hide ParseRaw, Split, Splits, GoodAttributes, SplitSigner, AddMissing, SealedAll, MarshalAttributes;
    var c := ParseRaw(e).value.0.bytes;
    var (body, existing) := SplitSigner(c).value;
    var list := AddMissing(existing, attrs);
    SignerBodySplits(c, body, existing);
    EncodedIsElement(UNIVERSAL, TAG_SEQUENCE, true, body + UnsignedElement(list));
    SignerReads(body, list);
  }

  /** A signer that already carries every attribute type on offer is left as it is. */
  lemma SignerUnchanged(e: Bytes, attrs: seq<Attribute>, e': Bytes, again: seq<Attribute>)
    requires CleanSigner(e) && GoodAttributes(attrs) && SignerWithEvidence(e, attrs) == Ok(e') && |e'| < LENGTH_LIMIT
    requires GoodAttributes(again)
    requires forall i :: 0 <= i < |again| ==> HasAttribute(attrs, again[i].oid)
    ensures SignerWithEvidence(e', again) == Ok(e')
  {
    hide ParseRaw, Split, Splits, GoodAttributes, SplitSigner, AddMissing, SealedAll, MarshalAttributes;
    SignerRewritten(e, attrs, e');
    var list := AddMissing(UnsignedAttributes(e), attrs);
    forall i | 0 <= i < |again| ensures HasAttribute(SealedAll(list), again[i].oid) {
      AddedTypes(UnsignedAttributes(e), attrs, again[i].oid);
      SealedTypes(list, again[i].oid);
    }
    NothingMissing(SealedAll(list), again);
    SealedAllAgain(list);
  }

  lemma AddedTypes(existing: seq<Attribute>, attrs: seq<Attribute>, oid: Oid)
    requires HasAttribute(attrs, oid)
    ensures HasAttribute(AddMissing(existing, attrs), oid)
  {
    var i :| 0 <= i < |attrs| && attrs[i].oid == oid;
    assert HasAttribute(AddMissing(existing, attrs), attrs[i].oid);
  }

  lemma SealedTypes(list: seq<Attribute>, oid: Oid)
    requires GoodAttributes(list) && HasAttribute(list, oid)
    ensures HasAttribute(SealedAll(list), oid)
  {
    var i :| 0 <= i < |list| && list[i].oid == oid;
    assert SealedAll(list)[i].oid == oid;
  }

  lemma {:induction false} NothingMissing(list: seq<Attribute>, extra: seq<Attribute>)
    requires forall i :: 0 <= i < |extra| ==> HasAttribute(list, extra[i].oid)
    ensures AddMissing(list, extra) == list
    decreases |extra|
  {
    hide HasAttribute, GoodAttributes;
    if |extra| > 0 {
      assert forall i :: 0 <= i < |extra| - 1 ==> extra[1..][i] == extra[i + 1];
      NothingMissing(list, extra[1..]);
    }
  }

  // ---------------------------------------------------------------- whole containers

  lemma {:induction false} ConcatPartBound(es: seq<Bytes>, i: nat)
    requires i < |es|
    ensures |es[i]| <= |Concat(es)|
  {
    if i > 0 { ConcatPartBound(es[1..], i - 1); }
  }

  lemma Rewritten(der: Bytes, ev: Evidence, o: Bytes) returns (es: seq<Bytes>)
    requires Clean(der) && AddLtv(der, ev) == Ok(o) && |o| < CONTAINER_LIMIT
    ensures GoodAttributes(EvidenceAttributes(ev)) && |es| == |OpenContainer(der).value.signers| > 0
    ensures forall i :: 0 <= i < |es| ==> |es[i]| < LENGTH_LIMIT
    ensures forall i :: 0 <= i < |es| ==>
      SignerWithEvidence(OpenContainer(der).value.signers[i], EvidenceAttributes(ev)) == Ok(es[i])
    ensures |Concat(es)| < LENGTH_LIMIT
    ensures o == BuildContainer(BuildBody(OpenContainer(der).value.prefix, Concat(es)))
  {
    hide SignerWithEvidence, EvidenceAttributes, SignedDataBody, ParseRaw, Split, EncodeOid, GoodAttributes;
    EvidenceAttributesGood(ev);
    var op := OpenContainer(der).value;
    assert |op.signers| > 0;
    hide OpenContainer;
    es := RewriteSigners(op.signers, EvidenceAttributes(ev)).value;
    RewriteEach(op.signers, EvidenceAttributes(ev), es);
    forall i | 0 <= i < |es| ensures |es[i]| <= |Concat(es)| { ConcatPartBound(es, i); }
  }

  /** Preservation: the rewritten container is clean, has the same octets in front of the
      signer set, the same number of signers, the same signed part in each, and each
      signer's attributes followed by those it lacked. */
  lemma AddLtvPreserves(der: Bytes, ev: Evidence, o: Bytes)
    requires Clean(der) && AddLtv(der, ev) == Ok(o) && |o| < CONTAINER_LIMIT
    ensures Clean(o)
    ensures var old_, new_ := OpenContainer(der).value, OpenContainer(o).value;
      && new_.prefix == old_.prefix && |new_.signers| == |old_.signers|
      && (forall i :: 0 <= i < |old_.signers| ==>
            SignedPart(old_.signers[i]).Some? && SignedPart(new_.signers[i]) == SignedPart(old_.signers[i]))
    ensures var old_, new_ := OpenContainer(der).value, OpenContainer(o).value;
      GoodAttributes(EvidenceAttributes(ev)) && (forall i :: 0 <= i < |old_.signers| ==>
        var list := AddMissing(UnsignedAttributes(old_.signers[i]), EvidenceAttributes(ev));
        GoodAttributes(list) && UnsignedAttributes(new_.signers[i]) == SealedAll(list))
  {
    hide SignerWithEvidence, EvidenceAttributes, SignedDataBody, ParseRaw, Split, Splits, GoodAttributes,
         SignedPart, UnsignedAttributes, BuildContainer, OpenBody, Concat, AddMissing, SealedAll;
    var old_ := OpenContainer(der).value;
    var es := Rewritten(der, ev, o);
    forall i | 0 <= i < |es|
      ensures CleanSigner(es[i]) && SignedPart(es[i]).Some? && SignedPart(es[i]) == SignedPart(old_.signers[i])
      ensures var list := AddMissing(UnsignedAttributes(old_.signers[i]), EvidenceAttributes(ev));
              GoodAttributes(list) && UnsignedAttributes(es[i]) == SealedAll(list)
    {
      SignerRewritten(old_.signers[i], EvidenceAttributes(ev), es[i]);
    }
    PrefixSplits(der);
    BodyReads(old_.prefix, es);
    ContainerReads(BuildBody(old_.prefix, Concat(es)));
  }

  /** Idempotence, octet for octet: evidence of kinds that are already embedded changes nothing. */
  lemma AddLtvIdempotent(der: Bytes, ev: Evidence, o: Bytes, ev2: Evidence)
    requires Clean(der) && AddLtv(der, ev) == Ok(o) && |o| < CONTAINER_LIMIT
    requires ev2 != NO_EVIDENCE
    requires ev2.certs != [] ==> ev.certs != []
    requires ev2.ocsp != [] || ev2.crls != [] ==> ev.ocsp != [] || ev.crls != []
    ensures AddLtv(o, ev2) == Ok(o)
  {
    hide SignerWithEvidence, SignedDataBody, ParseRaw, Split, Splits, GoodAttributes, BuildContainer, OpenBody, Concat;
    var es := Rewritten(der, ev, o);
    var attrs, again := EvidenceAttributes(ev), EvidenceAttributes(ev2);
    EvidenceAttributesGood(ev2);
    assert forall i :: 0 <= i < |again| ==> HasAttribute(attrs, again[i].oid) by { SameKinds(ev, ev2); }
    hide EvidenceAttributes;
    forall i | 0 <= i < |es| ensures SignerWithEvidence(es[i], again) == Ok(es[i]) && CleanSigner(es[i]) {
      SignerRewritten(OpenContainer(der).value.signers[i], attrs, es[i]);
      SignerUnchanged(OpenContainer(der).value.signers[i], attrs, es[i], again);
    }
    RewriteAll(es, again, es);
    PrefixSplits(der);
    BodyReads(OpenContainer(der).value.prefix, es);
    ContainerReads(BuildBody(OpenContainer(der).value.prefix, Concat(es)));
  }

  lemma SameKinds(ev: Evidence, ev2: Evidence)
    requires ev2.certs != [] ==> ev.certs != []
    requires ev2.ocsp != [] || ev2.crls != [] ==> ev.ocsp != [] || ev.crls != []
    ensures var attrs, again := EvidenceAttributes(ev), EvidenceAttributes(ev2);
            forall i :: 0 <= i < |again| ==> HasAttribute(attrs, again[i].oid)
  {
    hide Encode;
    var attrs, again := EvidenceAttributes(ev), EvidenceAttributes(ev2);
    forall i | 0 <= i < |again| ensures HasAttribute(attrs, again[i].oid) {
      if again[i].oid == REVOCATION_VALUES {
        assert attrs[0].oid == REVOCATION_VALUES by { KnownOids(); }
      } else {
        assert attrs[|attrs| - 1].oid == CERTIFICATE_VALUES;
      }
    }
  }

  // ---------------------------------------------------------------- attributes kept verbatim

  /** Reading a list of attributes and splitting it into elements see the same pieces. */
  lemma {:induction false} AttributePieces(b: Bytes, list: seq<Attribute>)
    requires ParseAttributes(b) == Some(list)
    ensures |Split(b)| == |list|
    ensures forall j :: 0 <= j < |list| ==> ParseAttribute(Split(b)[j]) == Some((list[j], []))
    decreases |b|
  {
    hide ParseAttribute, ParseRaw, IsElement;
    if |b| > 0 {
      var (a, rest) := ParseAttribute(b).value;
      var e, extra := AttributeElim(b, a, rest);
      AttributePieces(rest, list[1..]);
      SplitCons(e, rest);
      assert Split(b) == [e] + Split(rest) && list == [a] + list[1..];
    } else {
      EmptyRefused();
    }
  }

  lemma EmptyRefused()
    ensures Split([]) == []
  {
  }

  lemma {:induction false} MarshalPieces(list: seq<Attribute>)
    requires GoodAttributes(list) && |MarshalAttributes(list)| < LENGTH_LIMIT
    ensures |Split(MarshalAttributes(list))| == |list|
    ensures forall j :: 0 <= j < |list| ==> Split(MarshalAttributes(list))[j] == MarshalAttribute(list[j])
  {
    hide ParseRaw, GoodAttribute, IsElement, MarshalAttribute;
    if |list| == 0 {
      EmptyRefused();
    } else {
      var e, rest := MarshalAttribute(list[0]), MarshalAttributes(list[1..]);
      MarshalledIsElement(list[0]);
      MarshalPieces(list[1..]);
      SplitCons(e, rest);
    }
  }

  lemma SplitCons(e: Bytes, rest: Bytes)
    requires IsElement(e)
    ensures Split(e + rest) == [e] + Split(rest)
  {
    hide ParseRaw;
    ElementReads(e, rest);
    SplitStep(e + rest, ParseRaw(e).value.0, rest);
  }

  lemma MarshalledIsElement(a: Attribute)
    requires GoodAttribute(a) && |MarshalAttribute(a)| < LENGTH_LIMIT
    ensures IsElement(MarshalAttribute(a))
  {
    hide IsElement, EncodeOid, ParseRaw;
    EncodedIsElement(UNIVERSAL, TAG_SEQUENCE, true, EncodeOidField(a.oid) + MarshalRaw(a.values));
  }

  /** Each attribute element that was in the list (octets b) is at the same place in the
      extended list, and it is the same octets if and only if it had just two fields. */
  lemma AttributesKeptVerbatim(b: Bytes, list: seq<Attribute>, attrs: seq<Attribute>)
    requires ParseAttributes(b) == Some(list) && GoodAttributes(attrs)
    requires GoodAttributes(AddMissing(list, attrs)) && |MarshalAttributes(AddMissing(list, attrs))| < LENGTH_LIMIT
    ensures var after := Split(MarshalAttributes(AddMissing(list, attrs)));
      |Split(b)| == |list| <= |after| &&
      forall j :: 0 <= j < |list| ==> (after[j] == Split(b)[j] <==> TwoFields(Split(b)[j]))
  {
    hide ParseAttribute, ParseRaw, GoodAttribute, MarshalAttribute, Split, TwoFields, Encode, EncodeOidField;
    AttributePieces(b, list);
    var all := AddMissing(list, attrs);
    MarshalPieces(all);
    forall j | 0 <= j < |list|
      ensures MarshalAttribute(all[j]) == Split(b)[j] <==> TwoFields(Split(b)[j])
    {
      var piece := Split(b)[j];
      var e, extra := AttributeElim(piece, list[j], []);
      assert e == piece && all[j] == list[j];
      AttributeKept(piece, list[j], extra);
    }
  }

  // ---------------------------------------------------------------- the same for whole containers

  predicate EndsUnsigned(c: Bytes) {
    var es := Split(c);
    |es| > 0 && |es[|es| - 1]| > 0 && es[|es| - 1][0] == UNSIGNED_ID
  }

  /** The elements of a SignerInfo in front of its unsigned attributes. */
  function SignedElements(c: Bytes): (r: seq<Bytes>) {
    if EndsUnsigned(c) then Split(c)[..|Split(c)| - 1] else Split(c)
  }

  /** The octets copied in front of a signer's new attributes are exactly its elements before the
      old ones, if and only if the signer splits without remainder. */
  lemma SignerExact(c: Bytes)
    requires SplitSigner(c).Ok?
    ensures SplitSigner(c).value.0 == Concat(SignedElements(c)) <==> Splits(c)
  {
    hide ParseRaw, IsElement, Split, Concat, ParseAttributes;
    var es := Split(c);
    SplitPieces(c);
    if EndsUnsigned(c) {
      var front, last := es[..|es| - 1], es[|es| - 1];
      assert es == front + [last];
      ConcatSnoc(front, last);
      var body := c[..|c| - |last|];
      assert SplitSigner(c).value.0 == body;
      if body == Concat(front) {
        assert |Concat(es)| == |c|;
        assert c[..|c|] == c;
      }
      if Splits(c) { assert c == Concat(front) + last; }
    }
  }

  /** The contents of a signer's unsigned attributes element; empty without one. */
  function UnsignedContents(c: Bytes): (r: Bytes) {
    if !EndsUnsigned(c) then []
    else match ParseRaw(Split(c)[|Split(c)| - 1]) case None => [] case Some((v, _)) => v.bytes
  }

  /** The unsigned attribute elements of a signer, as they stand. */
  function AttributeElements(e: Bytes): (r: seq<Bytes>) {
    match ParseRaw(e) case None => [] case Some((si, _)) => Split(UnsignedContents(si.bytes))
  }

  lemma ContentsParse(c: Bytes, body: Bytes, list: seq<Attribute>)
    requires SplitSigner(c) == Ok((body, list))
    ensures ParseAttributes(UnsignedContents(c)) == Some(list)
  {
    hide ParseRaw, Split, ParseAttribute;
  }

  lemma ContentsBuilt(body: Bytes, list: seq<Attribute>)
    requires Splits(body) && GoodAttributes(list) && |UnsignedElement(list)| < LENGTH_LIMIT
    ensures UnsignedContents(body + UnsignedElement(list)) == MarshalAttributes(list)
  {
    hide ParseRaw, IsElement, Split, Splits, MarshalAttributes, GoodAttributes;
    var u := UnsignedElement(list);
    EncodedIsElement(CONTEXT, 1, true, MarshalAttributes(list));
    SplitSnoc(body, u);
    assert u[0] == UNSIGNED_ID;
  }

  /** Every old element is at its place, and the same octets if and only if it had two fields. */
  ghost predicate KeptInPlace(before: seq<Bytes>, after: seq<Bytes>) {
    |before| <= |after| && forall j :: 0 <= j < |before| ==> (after[j] == before[j] <==> TwoFields(before[j]))
  }

  lemma SignerKeepsElements(e: Bytes, attrs: seq<Attribute>, e': Bytes)
    requires CleanSigner(e) && GoodAttributes(attrs) && SignerWithEvidence(e, attrs) == Ok(e') && |e'| < LENGTH_LIMIT
    ensures KeptInPlace(AttributeElements(e), AttributeElements(e'))
  {
    hide ParseRaw, Split, Splits, GoodAttributes, SplitSigner, AddMissing, SealedAll, MarshalAttributes,
         UnsignedContents,
         TwoFields, ParseAttributes, IsElement;
    SignerRewritten(e, attrs, e');
    var c := ParseRaw(e).value.0.bytes;
    var (body, existing) := SplitSigner(c).value;
    var list := AddMissing(existing, attrs);
    ContentsParse(c, body, existing);
    SignerBodySplits(c, body, existing);
    EncodedIsElement(UNIVERSAL, TAG_SEQUENCE, true, body + UnsignedElement(list));
    ContentsBuilt(body, list);
    AttributesKeptVerbatim(UnsignedContents(c), existing, attrs);
  }

  /** In a rewritten container every signer's unsigned attribute elements are where they were, and
      each is the same octets if and only if it had just two fields. */
  lemma AddLtvKeepsElements(der: Bytes, ev: Evidence, o: Bytes)
    requires Clean(der) && AddLtv(der, ev) == Ok(o) && |o| < CONTAINER_LIMIT
    ensures OpenContainer(o).Ok? && |OpenContainer(o).value.signers| == |OpenContainer(der).value.signers|
    ensures forall i :: 0 <= i < |OpenContainer(der).value.signers| ==>
      KeptInPlace(AttributeElements(OpenContainer(der).value.signers[i]),
        AttributeElements(OpenContainer(o).value.signers[i]))
  {
    hide SignerWithEvidence, EvidenceAttributes, SignedDataBody, ParseRaw, Split, Splits, GoodAttributes,
         SignedPart, UnsignedAttributes, BuildContainer, OpenBody, Concat, AddMissing, SealedAll, KeptInPlace,
         AttributeElements;
    var before := OpenContainer(der).value;
    var es := Rewritten(der, ev, o);
    forall i | 0 <= i < |es|
      ensures CleanSigner(es[i]) && KeptInPlace(AttributeElements(before.signers[i]), AttributeElements(es[i]))
    {
      SignerRewritten(before.signers[i], EvidenceAttributes(ev), es[i]);
      SignerKeepsElements(before.signers[i], EvidenceAttributes(ev), es[i]);
    }
    PrefixSplits(der);
    BodyReads(before.prefix, es);
    ContainerReads(BuildBody(before.prefix, Concat(es)));
  }

  // ---------------------------------------------------------------- what is refused

  /** A signer element that can be rewritten: at least five elements, and attributes that parse. */
  predicate Rewritable(e: Bytes) {
    && ParseRaw(e).Some? && |Split(ParseRaw(e).value.0.bytes)| >= 5
    && ParseAttributes(UnsignedContents(ParseRaw(e).value.0.bytes)).Some?
  }

  lemma SignerExactly(e: Bytes, attrs: seq<Attribute>)
    requires GoodAttributes(attrs)
    ensures SignerWithEvidence(e, attrs).Ok? <==> Rewritable(e)
  {
    hide GoodAttributes, AddMissing, BuildSigner, ParseRaw, Split, SplitSigner, UnsignedContents;
    if ParseRaw(e).Some? { SplitSignerExactly(ParseRaw(e).value.0.bytes); }
  }

  lemma SplitSignerExactly(c: Bytes)
    ensures SplitSigner(c).Ok? <==> |Split(c)| >= 5 && ParseAttributes(UnsignedContents(c)).Some?
  {
    hide ParseRaw, Split, ParseAttributes, IsElement, GoodAttributes;
    LastFits(c);
    LastParses(c);
    EmptyAttributes();
  }

  lemma EmptyAttributes()
    ensures ParseAttributes([]) == Some([])
  {
  }

  lemma LastFits(c: Bytes)
    ensures |Split(c)| > 0 ==> |Split(c)[|Split(c)| - 1]| <= |c|
  {
    hide ParseRaw, Split, IsElement;
    SplitPieces(c);
    if |Split(c)| > 0 { ConcatPartBound(Split(c), |Split(c)| - 1); }
  }

  lemma LastParses(c: Bytes)
    ensures |Split(c)| > 0 ==> ParseRaw(Split(c)[|Split(c)| - 1]).Some?
  {
    SplitPieces(c);
    hide ParseRaw, Split;
    if |Split(c)| > 0 { assert IsElement(Split(c)[|Split(c)| - 1]); }
  }

  lemma {:induction false} SignersExactly(es: seq<Bytes>, attrs: seq<Attribute>)
    requires GoodAttributes(attrs)
    ensures RewriteSigners(es, attrs).Ok? <==> forall i :: 0 <= i < |es| ==> Rewritable(es[i])
  {
    hide SignerWithEvidence, GoodAttributes, Rewritable;
    if |es| > 0 {
      SignerExactly(es[0], attrs);
      SignersExactly(es[1..], attrs);
      assert es == [es[0]] + es[1..];
      assert forall i :: 0 < i < |es| ==> es[i] == es[1..][i - 1];
    }
  }

  /** A SignedData body that can be rewritten: four elements, the last holding a signer, and
      every signer rewritable. */
  predicate RewritableBody(body: Bytes) {
    && |Split(body)| >= 4
    && var signers := Split(ParsedBytes(Split(body)[|Split(body)| - 1]));
    |signers| >= 1 && forall i :: 0 <= i < |signers| ==> Rewritable(signers[i])
  }

  function ParsedBytes(e: Bytes): (r: Bytes) { match ParseRaw(e) case None => [] case Some((v, _)) => v.bytes }

  /** Embedding succeeds if and only if there is something to embed, the container is a
      SignedData by its content type 1.2.840.113549.1.7.2, and its body can be rewritten. */
  lemma AddLtvExactly(der: Bytes, ev: Evidence)
    ensures AddLtv(der, ev).Ok? <==>
      && (|ev.ocsp| > 0 || |ev.crls| > 0 || |ev.certs| > 0)
      && ParseContentInfo(der).Some? && ParseContentInfo(der).value.0 == [1, 2, 840, 113549, 1, 7, 2]
      && ParseRaw(ParseContentInfo(der).value.1).Some?
      && RewritableBody(ParsedBytes(ParseContentInfo(der).value.1))
    ensures |ev.ocsp| == 0 && |ev.crls| == 0 && |ev.certs| == 0 ==> AddLtv(der, ev) == Err(NothingToEmbed)
  {
    hide ParseContentInfo, RewriteSigners, GoodAttributes, EvidenceAttributes, BuildContainer, BuildBody, Rewritable,
         ParseRaw, Split, OpenBody;
    EvidenceAttributesGood(ev);
    if SignedDataBody(der).Ok? {
      var body := SignedDataBody(der).value;
      OpenBodyExactly(body);
      if OpenBody(body).Ok? { SignersExactly(OpenBody(body).value.signers, EvidenceAttributes(ev)); }
    }
  }

  lemma OpenBodyExactly(body: Bytes)
    ensures OpenBody(body).Ok? <==> |Split(body)| >= 4 && |Split(ParsedBytes(Split(body)[|Split(body)| - 1]))| >= 1
    ensures OpenBody(body).Ok? ==> OpenBody(body).value.signers == Split(ParsedBytes(Split(body)[|Split(body)| - 1]))
  {
    hide ParseRaw, Split;
    LastFits(body);
    LastParses(body);
  }
}
