/**
 What the reader of embedded evidence takes from a container, attribute by attribute
 and signer by signer, and what either direction refuses.
 */
module LtvReader {
  import opened Prelude
  import opened Der
  import opened Cms
  import opened Ltv
  import opened LtvPreservation
  import opened LtvRoundTrip

  // ---------------------------------------------------------------- one attribute

  /** Only the two evidence attributes carry anything, and the one with certificates nothing else. */
  lemma AttributeMeans(a: Attribute)
    ensures a.oid != [1, 2, 840, 113549, 1, 9, 16, 2, 23] && a.oid != [1, 2, 840, 113549, 1, 9, 16, 2, 24] ==>
      ReadAttribute(a) == Evidence([], [], [])
    ensures a.oid == [1, 2, 840, 113549, 1, 9, 16, 2, 23] ==>
      ReadAttribute(a) == Evidence([], [], SequenceElements(a.values.bytes))
    ensures a.oid == [1, 2, 840, 113549, 1, 9, 16, 2, 24] ==> ReadAttribute(a).certs == []
  {
    hide ParseRaw, Explicit, SequenceElements;
  }

  /** A sequence yields its elements, whatever class its tag is of; anything else yields none. */
  lemma SequenceMeans(b: Bytes)
    ensures ParseRaw(b).Some? && ParseRaw(b).value.0.tag == 16 && ParseRaw(b).value.0.compound ==>
      SequenceElements(b) == Split(ParseRaw(b).value.0.bytes)
    ensures ParseRaw(b) == None || ParseRaw(b).value.0.tag != 16 || !ParseRaw(b).value.0.compound ==>
      SequenceElements(b) == []
  {
    hide ParseRaw, Split;
  }

  /** Of an optional explicit field: present, its contents; absent, nothing, and nothing is read. */
  lemma ExplicitMeans(b: Bytes, k: nat, h: Header, rest: Bytes)
    requires ParseHeader(b) == Some((h, rest)) && |rest| > 0
    ensures h.cls != 2 || h.tag != k ==> Explicit(b, k) == Some(([], b))
    ensures h.cls == 2 && h.tag == k && h.compound && ParseRaw(b).Some? ==>
      Explicit(b, k) == Some((ParseRaw(b).value.0.bytes, ParseRaw(b).value.1))
  {
    hide ParseRaw, ParseHeader;
  }

  /** The revocation attribute's lists: certificate lists under 0, responses under 1. */
  lemma RevocationMeans(a: Attribute, crls: Bytes, ocsp: Bytes, mid: Bytes, end: Bytes)
    requires a.oid == [1, 2, 840, 113549, 1, 9, 16, 2, 24]
    requires ParseRaw(a.values.bytes).Some? && IsUniversal(ParseRaw(a.values.bytes).value.0, 16, true)
    requires Explicit(ParseRaw(a.values.bytes).value.0.bytes, 0) == Some((crls, mid))
    requires Explicit(mid, 1) == Some((ocsp, end))
    ensures ReadAttribute(a) == Evidence(SequenceElements(ocsp), SequenceElements(crls), [])
  {
    hide ParseRaw, Explicit, SequenceElements;
  }

  // ---------------------------------------------------------------- all signers

  function Responses(evs: seq<Evidence>): (r: seq<Bytes>) {
    if |evs| == 0 then [] else evs[0].ocsp + Responses(evs[1..])
  }

  function Lists(evs: seq<Evidence>): (r: seq<Bytes>) {
    if |evs| == 0 then [] else evs[0].crls + Lists(evs[1..])
  }

  function Certificates(evs: seq<Evidence>): (r: seq<Bytes>) {
    if |evs| == 0 then [] else evs[0].certs + Certificates(evs[1..])
  }

  /** What each attribute of a list carries. */
  function PerAttribute(list: seq<Attribute>): (r: seq<Evidence>) {
    seq(|list|, i requires 0 <= i < |list| => ReadAttribute(list[i]))
  }

  lemma {:induction false} ListReads(list: seq<Attribute>)
    ensures var evs := PerAttribute(list);
      ReadAttributes(list) == Evidence(Responses(evs), Lists(evs), Certificates(evs))
  {
    hide ReadAttribute;
    if |list| > 0 {
      ListReads(list[1..]);
      assert PerAttribute(list)[1..] == PerAttribute(list[1..]);
    }
  }

  /** What each signer carries, where its attributes can be read. */
  function PerSigner(us: seq<Bytes>): (r: seq<Evidence>)
    requires forall i :: 0 <= i < |us| ==> ParseAttributes(us[i]).Some?
  {
    seq(|us|, i requires 0 <= i < |us| => ReadAttributes(ParseAttributes(us[i]).value))
  }

  /** Evidence is gathered if and only if every signer's attributes can be read, and then it is
      everything they carry, signer by signer. */
  lemma {:induction false} GatheredExactly(us: seq<Bytes>)
    ensures Gather(us).Ok? <==> forall i :: 0 <= i < |us| ==> ParseAttributes(us[i]).Some?
    ensures Gather(us).Err? ==> Gather(us).error == BadAttributes
    ensures Gather(us).Ok? ==>
      var evs := PerSigner(us); Gather(us).value == Evidence(Responses(evs), Lists(evs), Certificates(evs))
  {
    hide ParseAttributes, ReadAttributes;
    if |us| > 0 {
      GatheredExactly(us[1..]);
      assert forall i :: 0 < i < |us| ==> us[i] == us[1..][i - 1];
      if forall i :: 0 <= i < |us| ==> ParseAttributes(us[i]).Some? {
        assert PerSigner(us)[1..] == PerSigner(us[1..]);
      }
    }
  }

  // ---------------------------------------------------------------- refusals

  /** What is refused on the way to the signers, in this order, by both directions. */
  lemma OpeningRefused(der: Bytes, ev: Evidence)
    requires |ev.ocsp| > 0 || |ev.crls| > 0 || |ev.certs| > 0
    ensures ParseContentInfo(der) == None ==>
      AddLtv(der, ev) == Err(BadContainer) && EmbeddedEvidence(der) == Err(BadContainer)
    ensures var c := ParseContentInfo(der);
      && (c.Some? && c.value.0 != [1, 2, 840, 113549, 1, 7, 2] ==>
        AddLtv(der, ev) == Err(NotSignedData) && EmbeddedEvidence(der) == Err(NotSignedData))
      && (c.Some? && c.value.0 == [1, 2, 840, 113549, 1, 7, 2] && ParseRaw(c.value.1) == None ==>
        AddLtv(der, ev) == Err(BadSignedData) && EmbeddedEvidence(der) == Err(BadSignedData))
  {
    hide ParseContentInfo, RewriteSigners, OpenBody, ParseRaw, ParseSignedData, Gather, BuildContainer, BuildBody,
         EvidenceAttributes, GoodAttributes;
    EvidenceAttributesGood(ev);
  }

  /** And of the body: too few elements, or no signer in the last of them. */
  lemma BodyRefused(body: Bytes)
    ensures |Split(body)| < 4 <==> OpenBody(body) == Err(TooFewElements)
    ensures OpenBody(body) == Err(NoSigners) <==>
      |Split(body)| >= 4 && |Split(ParsedBytes(Split(body)[|Split(body)| - 1]))| == 0
  {
    hide ParseRaw, Split;
    LastFits(body);
    LastParses(body);
  }
}
