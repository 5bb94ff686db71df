/**
 Embedding long-term-validation evidence into a CMS SignedData container and
 reading it back. The container is rebuilt from its own octets: only the signer
 set is replaced, and inside a signer only the unsigned attributes.
 */
module Ltv {
  import opened Prelude
  import opened Der
  import opened Cms

  datatype Evidence = Evidence(ocsp: seq<Bytes>, crls: seq<Bytes>, certs: seq<Bytes>)

  const NO_EVIDENCE := Evidence([], [], [])

  function Plus(a: Evidence, b: Evidence): (r: Evidence) {
    Evidence(a.ocsp + b.ocsp, a.crls + b.crls, a.certs + b.certs)
  }

  datatype LtvError =
    | NothingToEmbed | BadContainer | NotSignedData | BadSignedData | TooFewElements
    | BadSigners | NoSigners | BadSigner | ShortSigner | BadAttributes

  // ---------------------------------------------------------------- container framing

  /** An optional explicitly tagged field: its contents, and what follows it. */
  function Explicit(b: Bytes, k: nat): (r: Option<(Bytes, Bytes)>) {
    if |b| == 0 then Some(([], b))
    else match ParseHeader(b)
      case None => None
      case Some((h, rest)) =>
        if |rest| == 0 then None
        else if h.cls == CONTEXT && h.tag == k && (h.length == 0 || h.compound) then
          match ParseRaw(b)
          case None => None
          case Some((v, after)) => Some((v.bytes, after))
        else Some(([], b))
  }

  /** The content type and content of a ContentInfo. */
  function ParseContentInfo(der: Bytes): (r: Option<(Oid, Bytes)>) {
    match ParseRaw(der)
    case None => None
    case Some((v, _)) =>
      if !IsUniversal(v, TAG_SEQUENCE, true) then None
      else match ParseOidField(v.bytes)
        case None => None
        case Some((oid, r1)) =>
          match Explicit(r1, 0)
          case None => None
          case Some((content, _)) => Some((oid, content))
  }

  /** The octets of the SignedData inside a container. */
  function SignedDataBody(der: Bytes): (r: Result<Bytes, LtvError>) {
    match ParseContentInfo(der)
    case None => Err(BadContainer)
    case Some((oid, content)) =>
      if oid != SIGNED_DATA then Err(NotSignedData)
      else match ParseRaw(content)
        case None => Err(BadSignedData)
        case Some((sd, _)) => Ok(sd.bytes)
  }

  datatype Opened = Opened(prefix: Bytes, signers: seq<Bytes>)

  /** The octets in front of the last element, and the elements inside the last element. */
  function OpenBody(body: Bytes): (r: Result<Opened, LtvError>) {
    var es := Split(body);
    if |es| < 4 then Err(TooFewElements)
    else
      var last := es[|es| - 1];
      match ParseRaw(last)
      case None => Err(BadSigners)
      case Some((set_, _)) =>
        var signers := Split(set_.bytes);
        if |signers| == 0 then Err(NoSigners)
        else if |last| > |body| then Err(BadSigners)
        else Ok(Opened(body[..|body| - |last|], signers))
  }

  function OpenContainer(der: Bytes): (r: Result<Opened, LtvError>) {
    match SignedDataBody(der)
    case Err(e) => Err(e)
    case Ok(body) => OpenBody(body)
  }

  function BuildBody(prefix: Bytes, signers: Bytes): (r: Bytes) {
    prefix + Encode(UNIVERSAL, TAG_SET, true, signers)
  }

  function BuildContainer(body: Bytes): (r: Bytes) {
    Encode(UNIVERSAL, TAG_SEQUENCE, true,
      EncodeOidField(SIGNED_DATA) + Encode(CONTEXT, 0, true, Encode(UNIVERSAL, TAG_SEQUENCE, true, body)))
  }

  // ---------------------------------------------------------------- evidence attributes

  function SequenceOf(items: seq<Bytes>): (r: Bytes) {
    Encode(UNIVERSAL, TAG_SEQUENCE, true, Concat(items))
  }

  function TaggedList(k: nat, items: seq<Bytes>): (r: Bytes)
    requires k < 31
  {
    if |items| == 0 then [] else Encode(CONTEXT, k, true, SequenceOf(items))
  }

  function RevocationAttribute(ev: Evidence): (a: Attribute) {
    Attribute(REVOCATION_VALUES,
      Raw(UNIVERSAL, true, TAG_SET,
          Encode(UNIVERSAL, TAG_SEQUENCE, true, TaggedList(0, ev.crls) + TaggedList(1, ev.ocsp)), []))
  }

  function CertificateAttribute(ev: Evidence): (a: Attribute) {
    Attribute(CERTIFICATE_VALUES, Raw(UNIVERSAL, true, TAG_SET, SequenceOf(ev.certs), []))
  }

  function EvidenceAttributes(ev: Evidence): (r: seq<Attribute>) {
    (if |ev.ocsp| > 0 || |ev.crls| > 0 then [RevocationAttribute(ev)] else [])
    + (if |ev.certs| > 0 then [CertificateAttribute(ev)] else [])
  }

  lemma KnownOids()
    ensures WireOid(SIGNED_DATA) && WireOid(REVOCATION_VALUES) && WireOid(CERTIFICATE_VALUES)
    ensures REVOCATION_VALUES != CERTIFICATE_VALUES
  {
    assert ToArcs(SIGNED_DATA) == [42, 840, 113549, 1, 7, 2];
    assert ToArcs(REVOCATION_VALUES) == [42, 840, 113549, 1, 9, 16, 2, 24];
    assert ToArcs(CERTIFICATE_VALUES) == [42, 840, 113549, 1, 9, 16, 2, 23];
    assert REVOCATION_VALUES[8] != CERTIFICATE_VALUES[8];
  }

  lemma EvidenceAttributesGood(ev: Evidence)
    ensures GoodAttributes(EvidenceAttributes(ev))
  {
    hide WireOid, Encode;
    KnownOids();
  }

  predicate HasAttribute(list: seq<Attribute>, oid: Oid) {
    exists i :: 0 <= i < |list| && list[i].oid == oid
  }

  /** The attributes of extra whose type is not there yet are appended, in order. */
  function AddMissing(existing: seq<Attribute>, extra: seq<Attribute>): (r: seq<Attribute>)
    ensures existing <= r
    ensures GoodAttributes(existing) && GoodAttributes(extra) ==> GoodAttributes(r)
    ensures forall i :: 0 <= i < |extra| ==> HasAttribute(r, extra[i].oid)
    decreases |extra|
  {
    if |extra| == 0 then existing
    else
      var r := AddMissing(if HasAttribute(existing, extra[0].oid) then existing else existing + [extra[0]], extra[1..]);
      assert HasAttribute(r, extra[0].oid) by { AddedIsThere(existing, extra[0], r); }
      r
  }

  lemma AddedIsThere(existing: seq<Attribute>, a: Attribute, r: seq<Attribute>)
    requires (if HasAttribute(existing, a.oid) then existing else existing + [a]) <= r
    ensures HasAttribute(r, a.oid)
  {
    if HasAttribute(existing, a.oid) {
      var i :| 0 <= i < |existing| && existing[i].oid == a.oid;
      assert r[i].oid == a.oid;
    } else {
      assert r[|existing|] == (existing + [a])[|existing|];
    }
  }

  // ---------------------------------------------------------------- one signer

  const UNSIGNED_ID: byte := 0xA1

  /** The octets of a SignerInfo in front of its unsigned attributes, and those attributes. */
  function SplitSigner(c: Bytes): (r: Result<(Bytes, seq<Attribute>), LtvError>)
    ensures r.Ok? ==> GoodAttributes(r.value.1)
  {
    var es := Split(c);
    if |es| < 5 then Err(ShortSigner)
    else
      var last := es[|es| - 1];
      if |last| > 0 && last[0] == UNSIGNED_ID then
        match ParseRaw(last)
        case None => Err(BadAttributes)
        case Some((raw, _)) =>
          match ParseAttributes(raw.bytes)
          case None => Err(BadAttributes)
          case Some(list) =>
            AttributesParsedGood(raw.bytes, list);
            if |last| > |c| then Err(BadAttributes) else Ok((c[..|c| - |last|], list))
      else Ok((c, []))
  }

  function UnsignedElement(list: seq<Attribute>): (r: Bytes)
    requires GoodAttributes(list)
  {
    Encode(CONTEXT, 1, true, MarshalAttributes(list))
  }

  function BuildSigner(body: Bytes, list: seq<Attribute>): (r: Bytes)
    requires GoodAttributes(list)
  {
    Encode(UNIVERSAL, TAG_SEQUENCE, true, body + UnsignedElement(list))
  }

  function SignerWithEvidence(e: Bytes, attrs: seq<Attribute>): (r: Result<Bytes, LtvError>)
    requires GoodAttributes(attrs)
  {
    match ParseRaw(e)
    case None => Err(BadSigner)
    case Some((si, _)) =>
      match SplitSigner(si.bytes)
      case Err(x) => Err(x)
      case Ok((body, existing)) => Ok(BuildSigner(body, AddMissing(existing, attrs)))
  }

  function RewriteSigners(es: seq<Bytes>, attrs: seq<Attribute>): (r: Result<seq<Bytes>, LtvError>)
    requires GoodAttributes(attrs)
  {
    if |es| == 0 then Ok([])
    else match SignerWithEvidence(es[0], attrs)
      case Err(x) => Err(x)
      case Ok(e) =>
        match RewriteSigners(es[1..], attrs)
        case Err(x) => Err(x)
        case Ok(rest) => Ok([e] + rest)
  }

  /** The container with the evidence added to every signer's unsigned attributes. */
  function AddLtv(der: Bytes, ev: Evidence): (r: Result<Bytes, LtvError>) {
    if ev == NO_EVIDENCE then Err(NothingToEmbed)
    else match OpenContainer(der)
      case Err(x) => Err(x)
      case Ok(o) =>
        EvidenceAttributesGood(ev);
        match RewriteSigners(o.signers, EvidenceAttributes(ev))
        case Err(x) => Err(x)
        case Ok(es) => Ok(BuildContainer(BuildBody(o.prefix, Concat(es))))
  }

  // ---------------------------------------------------------------- the writers as loops

  method FindAttribute(list: seq<Attribute>, oid: Oid) returns (found: bool)
    ensures found == HasAttribute(list, oid)
  {
    for i := 0 to |list|
      invariant forall k :: 0 <= k < i ==> list[k].oid != oid
    {
      if list[i].oid == oid { return true; }
    }
    return false;
  }

  method AddMissingAttributes(existing: seq<Attribute>, extra: seq<Attribute>) returns (r: seq<Attribute>)
    ensures r == AddMissing(existing, extra)
  {
    hide HasAttribute, GoodAttributes;
    r := existing;
    assert extra[0..] == extra;
    for n := 0 to |extra|
      invariant AddMissing(r, extra[n..]) == AddMissing(existing, extra)
    {
      AddMissingStep(r, extra[n], extra[n + 1..]);
      assert extra[n..] == [extra[n]] + extra[n + 1..];
      var found := FindAttribute(r, extra[n].oid);
      if !found { r := r + [extra[n]]; }
    }
  }

  lemma AddMissingStep(existing: seq<Attribute>, a: Attribute, rest: seq<Attribute>)
    ensures AddMissing(existing, [a] + rest)
         == AddMissing(if HasAttribute(existing, a.oid) then existing else existing + [a], rest)
  {
    hide HasAttribute, GoodAttributes;
    assert ([a] + rest)[1..] == rest;
  }

  method RewriteSigner(e: Bytes, attrs: seq<Attribute>) returns (r: Result<Bytes, LtvError>)
    requires GoodAttributes(attrs)
    ensures r == SignerWithEvidence(e, attrs)
  {
    hide ParseRaw, Split, ParseAttributes, BuildSigner, AddMissing;
    var si := ParseRaw(e);
    if si.None? { return Err(BadSigner); }
    var c := si.value.0.bytes;
    var es := SplitDer(c);
    if |es| < 5 { return Err(ShortSigner); }
    var existing: seq<Attribute> := [];
    var body := c;
    var last := es[|es| - 1];
    if |last| > 0 && last[0] == UNSIGNED_ID {
      var raw := ParseRaw(last);
      if raw.None? { return Err(BadAttributes); }
      var parsed := ParseAttributeList(raw.value.0.bytes);
      if parsed.None? || |last| > |c| { return Err(BadAttributes); }
      existing := parsed.value;
      body := c[..|c| - |last|];
    }
    assert SplitSigner(c) == Ok((body, existing));
    var list := AddMissingAttributes(existing, attrs);
    hide SplitSigner;
    r := Ok(BuildSigner(body, list));
  }

  method AddLtvToContainer(der: Bytes, ev: Evidence) returns (r: Result<Bytes, LtvError>)
    ensures r == AddLtv(der, ev)
  {
    hide SignedDataBody, ParseRaw, Split, SignerWithEvidence, EvidenceAttributes, BuildContainer;
    if ev == NO_EVIDENCE { return Err(NothingToEmbed); }
    var sd := SignedDataBody(der);
    if sd.Err? { return Err(sd.error); }
    var elements := SplitDer(sd.value);
    if |elements| < 4 { return Err(TooFewElements); }
    var last := elements[|elements| - 1];
    var parsed := ParseRaw(last);
    if parsed.None? { return Err(BadSigners); }
    var signers := SplitDer(parsed.value.0.bytes);
    if |signers| == 0 { return Err(NoSigners); }
    if |last| > |sd.value| { return Err(BadSigners); }
    var prefix := sd.value[..|sd.value| - |last|];
    assert OpenContainer(der) == Ok(Opened(prefix, signers));
    hide OpenContainer;
    EvidenceAttributesGood(ev);
    var attrs := EvidenceAttributes(ev);
    var rebuilt: Bytes := [];
    ghost var done: seq<Bytes> := [];
    for n := 0 to |signers|
      invariant |done| == n && rebuilt == Concat(done)
      invariant forall i :: 0 <= i < n ==> SignerWithEvidence(signers[i], attrs) == Ok(done[i])
    {
      var updated := RewriteSigner(signers[n], attrs);
      if updated.Err? {
        RewriteStops(signers, attrs, n);
        return Err(updated.error);
      }
      ConcatSnoc(done, updated.value);
      rebuilt := rebuilt + updated.value;
      done := done + [updated.value];
    }
    RewriteAll(signers, attrs, done);
    r := Ok(BuildContainer(BuildBody(prefix, rebuilt)));
  }

  lemma {:induction false} RewriteStops(es: seq<Bytes>, attrs: seq<Attribute>, n: nat)
    requires GoodAttributes(attrs) && n < |es| && SignerWithEvidence(es[n], attrs).Err?
    requires forall i :: 0 <= i < n ==> SignerWithEvidence(es[i], attrs).Ok?
    ensures RewriteSigners(es, attrs) == Err(SignerWithEvidence(es[n], attrs).error)
  {
    hide SignerWithEvidence;
    if n > 0 {
      assert es[1..][n - 1] == es[n];
      assert forall i :: 0 <= i < n - 1 ==> es[1..][i] == es[i + 1];
      RewriteStops(es[1..], attrs, n - 1);
    }
  }

  lemma {:induction false} RewriteEach(es: seq<Bytes>, attrs: seq<Attribute>, done: seq<Bytes>)
    requires GoodAttributes(attrs) && RewriteSigners(es, attrs) == Ok(done)
    ensures |done| == |es|
    ensures forall i :: 0 <= i < |es| ==> SignerWithEvidence(es[i], attrs) == Ok(done[i])
  {
    hide SignerWithEvidence;
    if |es| > 0 {
      RewriteEach(es[1..], attrs, done[1..]);
      assert forall i :: 0 < i < |es| ==> es[i] == es[1..][i - 1] && done[i] == done[1..][i - 1];
    }
  }

  lemma {:induction false} RewriteAll(es: seq<Bytes>, attrs: seq<Attribute>, done: seq<Bytes>)
    requires GoodAttributes(attrs) && |done| == |es|
    requires forall i :: 0 <= i < |es| ==> SignerWithEvidence(es[i], attrs) == Ok(done[i])
    ensures RewriteSigners(es, attrs) == Ok(done)
  {
    hide SignerWithEvidence;
    if |es| > 0 {
      assert forall i :: 0 <= i < |es| - 1 ==> es[1..][i] == es[i + 1] && done[1..][i] == done[i + 1];
      RewriteAll(es[1..], attrs, done[1..]);
      assert done == [done[0]] + done[1..];
    }
  }
}
