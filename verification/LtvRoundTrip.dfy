/**
 Reading evidence back out of a container, and the law that ties it to embedding:
 what was embedded in every signer is what is read, in order.
 */
module LtvRoundTrip {
  import opened Prelude
  import opened Der
  import opened Cms
  import opened Ltv
  import opened LtvPreservation

  // ---------------------------------------------------------------- the reader

  const SIGNER_HEAD: seq<Field> := [Integer, Any, Algorithm, OptContext(0), Algorithm]
  const DATA_FIELDS: seq<Field> := [Integer, Any, Any, OptContext(0), OptContext(1)]

  /** The elements of a SEQUENCE; anything else yields none. */
  function SequenceElements(b: Bytes): (r: seq<Bytes>) {
    match ParseRaw(b)
    case None => []
    case Some((v, _)) => if v.tag != TAG_SEQUENCE || !v.compound then [] else Split(v.bytes)
  }

  /** The evidence inside one attribute; a malformed or foreign attribute carries none. */
  function ReadAttribute(a: Attribute): (r: Evidence) {
    if a.oid == REVOCATION_VALUES then
      match ParseRaw(a.values.bytes)
      case None => NO_EVIDENCE
      case Some((v, _)) =>
        if !IsUniversal(v, TAG_SEQUENCE, true) then NO_EVIDENCE
        else match Explicit(v.bytes, 0)
          case None => NO_EVIDENCE
          case Some((crls, rest)) =>
            match Explicit(rest, 1)
            case None => NO_EVIDENCE
            case Some((ocsp, _)) => Evidence(SequenceElements(ocsp), SequenceElements(crls), [])
    else if a.oid == CERTIFICATE_VALUES then Evidence([], [], SequenceElements(a.values.bytes))
    else NO_EVIDENCE
  }

  function ReadAttributes(list: seq<Attribute>): (r: Evidence) {
    if |list| == 0 then NO_EVIDENCE else Plus(ReadAttribute(list[0]), ReadAttributes(list[1..]))
  }

  /** The contents of a signer's unsigned attributes; empty when it has none. */
  function UnsignedOctets(c: Bytes): (r: Option<Bytes>) {
    match SkipFields(c, SIGNER_HEAD + [Octets])
    case None => None
    case Some(rest) =>
      if AbsentHere(rest, 1) then Some([])
      else match ParseRaw(rest)
        case None => None
        case Some((v, _)) => Some(v.bytes)
  }

  /** The unsigned attribute octets of every signer in a signer set. */
  function ParseSigners(b: Bytes): (r: Option<seq<Bytes>>)
    decreases |b|
  {
    if |b| == 0 then Some([])
    else match ParseRaw(b)
      case None => None
      case Some((v, rest)) =>
        if !IsUniversal(v, TAG_SEQUENCE, true) then None
        else match UnsignedOctets(v.bytes)
          case None => None
          case Some(u) =>
            match ParseSigners(rest)
            case None => None
            case Some(us) => Some([u] + us)
  }

  function ParseSignedData(body: Bytes): (r: Option<seq<Bytes>>) {
    match SkipFields(body, DATA_FIELDS)
    case None => None
    case Some(rest) =>
      match ParseRaw(rest)
      case None => None
      case Some((v, _)) => if IsUniversal(v, TAG_SET, true) then ParseSigners(v.bytes) else None
  }

  /** Evidence gathered signer by signer; a signer without attributes is passed over. */
  function Gather(us: seq<Bytes>): (r: Result<Evidence, LtvError>) {
    if |us| == 0 then Ok(NO_EVIDENCE)
    else match ParseAttributes(us[0])
      case None => Err(BadAttributes)
      case Some(list) =>
        match Gather(us[1..])
        case Err(x) => Err(x)
        case Ok(ev) => Ok(Plus(ReadAttributes(list), ev))
  }

  function EmbeddedEvidence(der: Bytes): (r: Result<Evidence, LtvError>) {
    match ParseContentInfo(der)
    case None => Err(BadContainer)
    case Some((oid, content)) =>
      if oid != SIGNED_DATA then Err(NotSignedData)
      else match ParseRaw(content)
        case None => Err(BadSignedData)
        case Some((sd, _)) =>
          if !IsUniversal(sd, TAG_SEQUENCE, true) then Err(BadSignedData)
          else match ParseSignedData(sd.bytes)
            case None => Err(BadSignedData)
            case Some(us) => Gather(us)
  }

  lemma PlusLaws(a: Evidence, b: Evidence, c: Evidence)
    ensures Plus(Plus(a, b), c) == Plus(a, Plus(b, c))
    ensures Plus(NO_EVIDENCE, a) == a && Plus(a, NO_EVIDENCE) == a
  {
  }

  lemma {:induction false} ReadAppend(a: seq<Attribute>, b: seq<Attribute>)
    ensures ReadAttributes(a + b) == Plus(ReadAttributes(a), ReadAttributes(b))
  {
    hide ReadAttribute, Plus;
    if |a| == 0 {
      assert a + b == b;
      PlusLaws(ReadAttributes(b), NO_EVIDENCE, NO_EVIDENCE);
    } else {
      assert (a + b)[1..] == a[1..] + b;
      ReadAppend(a[1..], b);
      PlusLaws(ReadAttribute(a[0]), ReadAttributes(a[1..]), ReadAttributes(b));
    }
  }

  /** The reader as the two loops it is: over the signers, and over each one's attributes. */
  method GatherEvidence(us: seq<Bytes>) returns (r: Result<Evidence, LtvError>)
    ensures r == Gather(us)
  {
    hide ParseAttributes, ReadAttribute, Plus;
    var ev := NO_EVIDENCE;
    assert us[0..] == us;
    assert Gather(us).Ok? ==> Plus(NO_EVIDENCE, Gather(us).value) == Gather(us).value by {
      if Gather(us).Ok? { PlusLaws(Gather(us).value, ev, ev); }
    }
    for n := 0 to |us|
      invariant Gather(us) == (match Gather(us[n..]) case Err(x) => Err(x) case Ok(t) => Ok(Plus(ev, t)))
    {
      assert us[n..][0] == us[n] && us[n..][1..] == us[n + 1..];
      var list := ParseAttributeList(us[n]);
      if list.None? { return Err(BadAttributes); }
      ghost var before := ev;
      PlusLaws(before, before, before);
      for i := 0 to |list.value|
        invariant ev == Plus(before, ReadAttributes(list.value[..i]))
      {
        var a := list.value[i];
        assert list.value[..i + 1] == list.value[..i] + [a];
        ReadAppend(list.value[..i], [a]);
        ReadOne(a);
        PlusLaws(before, ReadAttributes(list.value[..i]), ReadAttribute(a));
        ev := Plus(ev, ReadAttribute(a));
      }
      assert list.value[..|list.value|] == list.value;
      if Gather(us[n + 1..]).Ok? {
        PlusLaws(before, ReadAttributes(list.value), Gather(us[n + 1..]).value);
      }
    }
    PlusLaws(ev, ev, ev);
    return Ok(ev);
  }

  lemma ReadOne(a: Attribute)
    ensures ReadAttributes([a]) == ReadAttribute(a)
  {
    hide ReadAttribute;
    PlusLaws(ReadAttribute(a), NO_EVIDENCE, NO_EVIDENCE);
    assert [a][1..] == [];
  }

  // ---------------------------------------------------------------- well-formed containers

  /** A signer whose fields account for all of its octets. */
  ghost predicate WellFormedSigner(e: Bytes) {
    && IsElement(e) && IsUniversal(ParseRaw(e).value.0, TAG_SEQUENCE, true)
    && var fields := SkipFields(ParseRaw(e).value.0.bytes, SIGNER_HEAD + [Octets]);
    && fields.Some?
    && (fields.value == [] || WellFormedUnsigned(fields.value))
  }

  ghost predicate WellFormedUnsigned(u: Bytes) {
    IsElement(u) && |u| > 0 && u[0] == UNSIGNED_ID && ParseAttributes(ParseRaw(u).value.0.bytes).Some?
  }

  ghost predicate WellFormedBody(body: Bytes) {
    var fields := SkipFields(body, DATA_FIELDS);
    && fields.Some? && IsElement(fields.value)
    && var v := ParseRaw(fields.value).value.0;
    && IsUniversal(v, TAG_SET, true) && Splits(v.bytes) && |Split(v.bytes)| > 0
    && forall e :: e in Split(v.bytes) ==> WellFormedSigner(e)
  }

  /** A container the record reader accepts with nothing left over at any level. */
  ghost predicate WellFormed(der: Bytes) {
    && ParseContentInfo(der).Some? && ParseContentInfo(der).value.0 == SIGNED_DATA
    && var sd := ParseRaw(ParseContentInfo(der).value.1);
    && sd.Some? && IsUniversal(sd.value.0, TAG_SEQUENCE, true) && WellFormedBody(sd.value.0.bytes)
  }

  lemma {:induction false} SkipSnoc(b: Bytes, fs: seq<Field>, f: Field)
    ensures SkipFields(b, fs + [f]) ==
      match SkipFields(b, fs) case None => None case Some(r) => SkipField(r, f)
    decreases |fs|
  {
    hide SkipField;
    if |fs| == 0 {
      assert fs + [f] == [f] && [f][1..] == [];
      if SkipField(b, f).Some? { assert SkipFields(SkipField(b, f).value, []) == SkipField(b, f); }
    } else {
      assert (fs + [f])[1..] == fs[1..] + [f];
      if SkipField(b, fs[0]).Some? { SkipSnoc(SkipField(b, fs[0]).value, fs[1..], f); }
    }
  }

  /** The signed fields of a signer are whole elements, the last of them the signature
      octets; whatever is put after them, the record reader stops there. */
  lemma SignerShape(c: Bytes, rest: Bytes, x: Bytes) returns (es: seq<Bytes>, sig: Bytes)
    requires SkipFields(c, SIGNER_HEAD + [Octets]) == Some(rest)
    ensures (forall e :: e in es ==> IsElement(e)) && |es| >= 4 && IsElement(sig) && |sig| > 0 && sig[0] == 4
    ensures c == Concat(es) + sig + rest
    ensures SkipFields(Concat(es) + sig + x, SIGNER_HEAD + [Octets]) == Some(x)
  {
    hide ParseRaw, SkipFields, IsElement, Concat, ParseHeader;
    SkipSnoc(c, SIGNER_HEAD, Octets);
    var r5 := SkipFields(c, SIGNER_HEAD).value;
    var v := ParseRaw(r5).value.0;
    sig := v.full;
    OctetsElement(r5, v, rest);
    HeaderOfElement(sig, rest, x);
    es := SkipReplace(c, SIGNER_HEAD, r5, sig + x);
    assert Mandatory(SIGNER_HEAD) == 4 by { HeadCount(); }
    assert Concat(es) + (sig + x) == Concat(es) + sig + x && Concat(es) + (sig + rest) == Concat(es) + sig + rest;
    SkipSnoc(Concat(es) + (sig + x), SIGNER_HEAD, Octets);
    RawLocal(r5, v, rest, x);
    SkipTaken(sig + x, Octets, v, x);
  }

  lemma HeadCount()
    ensures Mandatory(SIGNER_HEAD) == 4 && Mandatory(DATA_FIELDS) == 3
  {
    assert SIGNER_HEAD[1..] == [Any, Algorithm, OptContext(0), Algorithm];
    assert [Any, Algorithm, OptContext(0), Algorithm][1..] == [Algorithm, OptContext(0), Algorithm];
    assert [Algorithm, OptContext(0), Algorithm][1..] == [OptContext(0), Algorithm];
    assert [OptContext(0), Algorithm][1..] == [Algorithm];
    assert [Algorithm][1..] == [];
    assert DATA_FIELDS[1..] == [Any, Any, OptContext(0), OptContext(1)];
    assert [Any, Any, OptContext(0), OptContext(1)][1..] == [Any, OptContext(0), OptContext(1)];
    assert [Any, OptContext(0), OptContext(1)][1..] == [OptContext(0), OptContext(1)];
    assert [OptContext(0), OptContext(1)][1..] == [OptContext(1)];
    assert [OptContext(1)][1..] == [];
  }

  lemma OctetsElement(b: Bytes, v: Raw, rest: Bytes)
    requires ParseRaw(b) == Some((v, rest)) && IsUniversal(v, TAG_OCTETS, false)
    ensures IsElement(v.full) && ParseRaw(v.full) == Some((v, [])) && |v.full| > 0 && v.full[0] == 4
  {
    hide ParseRaw;
    RawLocal(b, v, rest, []);
    assert v.full + [] == v.full;
    RawCanonical(b, v, rest);
  }

  /** Splitting such a signer from its end finds the same boundary as reading its fields. */
  lemma SignerOpens(c: Bytes, rest: Bytes, es: seq<Bytes>, sig: Bytes)
    requires (forall e :: e in es ==> IsElement(e)) && |es| >= 4 && IsElement(sig) && |sig| > 0 && sig[0] == 4
    requires c == Concat(es) + sig + rest && (rest == [] || WellFormedUnsigned(rest))
    ensures Splits(c) && SplitSigner(c).Ok? && SplitSigner(c).value.0 == Concat(es) + sig
  {
    hide ParseRaw, IsElement, Concat, Split, ParseAttributes;
    var front := es + [sig];
    ConcatSnoc(es, sig);
    SplitsConcat(front);
    if rest == [] {
      assert c == Concat(front);
    } else {
      SplitSnoc(Concat(front), rest);
      ElementParses(rest);
      assert c[..|c| - |rest|] == Concat(front);
    }
  }

  lemma WellFormedIsClean(e: Bytes)
    requires WellFormedSigner(e)
    ensures CleanSigner(e) && SignedPart(e).Some?
  {
    hide ParseRaw, IsElement, SkipFields, WellFormedUnsigned, SplitSigner, Splits;
    ElementParses(e);
    var c := ParseRaw(e).value.0.bytes;
    var rest := SkipFields(c, SIGNER_HEAD + [Octets]).value;
    var es, sig := SignerShape(c, rest, []);
    SignerOpens(c, rest, es, sig);
  }

  lemma ElementParses(e: Bytes)
    requires IsElement(e)
    ensures ParseRaw(e).Some? && ParseRaw(e).value.1 == []
  {
  }

  lemma RewriteSucceeds(e: Bytes, attrs: seq<Attribute>)
    requires WellFormedSigner(e) && GoodAttributes(attrs)
    ensures SignerWithEvidence(e, attrs).Ok?
  {
    hide ParseRaw, GoodAttributes, SplitSigner, BuildSigner, WellFormedSigner;
    WellFormedIsClean(e);
  }

  /** A rewritten signer is read as carrying exactly the octets of its new attribute list. */
  lemma RewrittenSignerReads(e: Bytes, attrs: seq<Attribute>, e': Bytes)
    requires WellFormedSigner(e) && GoodAttributes(attrs) && SignerWithEvidence(e, attrs) == Ok(e')
      && |e'| < LENGTH_LIMIT
    ensures var list := AddMissing(UnsignedAttributes(e), attrs);
      && GoodAttributes(list) && |MarshalAttributes(list)| < LENGTH_LIMIT
      && IsElement(e') && IsUniversal(ParseRaw(e').value.0, TAG_SEQUENCE, true)
      && UnsignedOctets(ParseRaw(e').value.0.bytes) == Some(MarshalAttributes(list))
  {
    hide ParseRaw, GoodAttributes, SkipFields, SplitSigner, AddMissing, MarshalAttributes, Splits, IsElement,
         SealedAll, ParseHeader;
    var c := ParseRaw(e).value.0.bytes;
    var rest := SkipFields(c, SIGNER_HEAD + [Octets]).value;
    WellFormedIsClean(e);
    SignerRewritten(e, attrs, e');
    var list := AddMissing(UnsignedAttributes(e), attrs);
    var u := UnsignedElement(list);
    var es, sig := SignerShape(c, rest, u);
    SignerOpens(c, rest, es, sig);
    ElementParses(e);
    var body := Concat(es) + sig;
    assert SignedPart(e) == Some(body);
    EncodedIsElement(UNIVERSAL, TAG_SEQUENCE, true, body + u);
    EncodedIsElement(CONTEXT, 1, true, MarshalAttributes(list));
    HeaderOfElement(u, [], []);
    assert u + [] == u;
    assert !AbsentHere(u, 1);
  }

  // ---------------------------------------------------------------- what is read from the new list

  lemma {:induction false} ReadSealed(list: seq<Attribute>)
    requires GoodAttributes(list)
    ensures ReadAttributes(SealedAll(list)) == ReadAttributes(list)
  {
    hide ParseRaw, MarshalRaw, Explicit, SequenceElements;
    if |list| > 0 {
      assert SealedAll(list)[1..] == SealedAll(list[1..]);
      ReadSealed(list[1..]);
      assert ReadAttribute(Sealed(list[0])) == ReadAttribute(list[0]);
    }
  }

  /** What the signers of a container carry once each has been offered the attributes. */
  function Carried(signers: seq<Bytes>, attrs: seq<Attribute>): (r: Evidence) {
    if |signers| == 0 then NO_EVIDENCE
    else Plus(ReadAttributes(AddMissing(UnsignedAttributes(signers[0]), attrs)), Carried(signers[1..], attrs))
  }

  lemma SignersCons(e: Bytes, rest: Bytes, u: Bytes, us: seq<Bytes>)
    requires IsElement(e) && IsUniversal(ParseRaw(e).value.0, TAG_SEQUENCE, true)
    requires UnsignedOctets(ParseRaw(e).value.0.bytes) == Some(u) && ParseSigners(rest) == Some(us)
    ensures ParseSigners(e + rest) == Some([u] + us)
  {
    hide ParseRaw, UnsignedOctets;
    ElementReads(e, rest);
  }

  lemma {:induction false} SignersRead(signers: seq<Bytes>, attrs: seq<Attribute>, es: seq<Bytes>)
    requires GoodAttributes(attrs) && |es| == |signers|
    requires forall i :: 0 <= i < |es| ==> WellFormedSigner(signers[i]) && |es[i]| < LENGTH_LIMIT
    requires forall i :: 0 <= i < |es| ==> SignerWithEvidence(signers[i], attrs) == Ok(es[i])
    ensures ParseSigners(Concat(es)).Some? && Gather(ParseSigners(Concat(es)).value) == Ok(Carried(signers, attrs))
  {
    hide ParseRaw, WellFormedSigner, SignerWithEvidence, GoodAttributes, AddMissing, UnsignedAttributes,
         MarshalAttributes, ParseAttributes, UnsignedOctets, SealedAll, IsElement, Plus, ReadAttributes;
    if |es| > 0 {
      assert forall i :: 0 <= i < |es| - 1 ==> signers[1..][i] == signers[i + 1] && es[1..][i] == es[i + 1];
      SignersRead(signers[1..], attrs, es[1..]);
      RewrittenSignerReads(signers[0], attrs, es[0]);
      var list := AddMissing(UnsignedAttributes(signers[0]), attrs);
      var us := ParseSigners(Concat(es[1..])).value;
      var u := MarshalAttributes(list);
      SignersCons(es[0], Concat(es[1..]), u, us);
      hide ParseSigners;
      AttributesRead(list);
      ReadSealed(list);
      assert ([u] + us)[1..] == us;
    }
  }

  lemma WellFormedBodyOpens(body: Bytes, newSet: Bytes) returns (es: seq<Bytes>)
    requires WellFormedBody(body) && IsElement(newSet) && IsUniversal(ParseRaw(newSet).value.0, TAG_SET, true)
    ensures Splits(body) && OpenBody(body).Ok? && OpenBody(body).value.prefix == Concat(es)
    ensures forall e :: e in OpenBody(body).value.signers ==> WellFormedSigner(e)
    ensures SkipFields(OpenBody(body).value.prefix + newSet, DATA_FIELDS) == Some(newSet)
  {
    hide ParseRaw, ParseHeader, IsElement, SkipFields, WellFormedSigner, Split, Concat;
    var old_ := SkipFields(body, DATA_FIELDS).value;
    ElementParses(old_);
    ElementParses(newSet);
    HeaderOfElement(old_, [], []);
    HeaderOfElement(newSet, [], []);
    assert old_ + [] == old_ && newSet + [] == newSet;
    es := SkipReplace(body, DATA_FIELDS, old_, newSet);
    HeadCount();
    SplitsConcat(es);
    SplitSnoc(Concat(es), old_);
    assert body[..|body| - |old_|] == Concat(es);
  }

  lemma WellFormedIsCleanContainer(der: Bytes)
    requires WellFormed(der)
    ensures Clean(der) && forall e :: e in OpenContainer(der).value.signers ==> WellFormedSigner(e)
  {
    hide ParseRaw, WellFormedSigner, OpenBody, Splits, CleanSigner, WellFormedBody, ParseContentInfo;
    var body := ParseRaw(ParseContentInfo(der).value.1).value.0.bytes;
    EncodedIsElement(UNIVERSAL, TAG_SET, true, []);
    var es := WellFormedBodyOpens(body, Encode(UNIVERSAL, TAG_SET, true, []));
    forall e | e in OpenContainer(der).value.signers ensures CleanSigner(e) { WellFormedIsClean(e); }
  }

  /** Embedding never refuses a well-formed container. */
  lemma AddLtvSucceeds(der: Bytes, ev: Evidence)
    requires WellFormed(der) && ev != NO_EVIDENCE
    ensures AddLtv(der, ev).Ok?
  {
    hide WellFormed, WellFormedSigner, SignerWithEvidence, OpenContainer, EvidenceAttributes, GoodAttributes;
    WellFormedIsCleanContainer(der);
    EvidenceAttributesGood(ev);
    var signers, attrs := OpenContainer(der).value.signers, EvidenceAttributes(ev);
    forall e | e in signers ensures SignerWithEvidence(e, attrs).Ok? { RewriteSucceeds(e, attrs); }
    var done := seq(|signers|, i requires 0 <= i < |signers| => SignerWithEvidence(signers[i], attrs).value);
    RewriteAll(signers, attrs, done);
  }

  /** Round trip: reading the rewritten container gives, signer by signer, what the signer
      carried followed by the evidence whose kind it lacked. */
  lemma RoundTrip(der: Bytes, ev: Evidence, o: Bytes)
    requires WellFormed(der) && AddLtv(der, ev) == Ok(o) && |o| < CONTAINER_LIMIT
    ensures OpenContainer(der).Ok?
    ensures EmbeddedEvidence(o) == Ok(Carried(OpenContainer(der).value.signers, EvidenceAttributes(ev)))
  {
    hide ParseRaw, WellFormedSigner, Splits, CleanSigner, WellFormedBody, ParseContentInfo, SignerWithEvidence,
         EvidenceAttributes, OpenBody, Gather, GoodAttributes, SkipFields, Concat, IsElement, ParseSigners, Carried,
         Encode;
    WellFormedIsCleanContainer(der);
    var op := OpenContainer(der).value;
    var es := Rewritten(der, ev, o);
    var newSet := Encode(UNIVERSAL, TAG_SET, true, Concat(es));
    EncodedIsElement(UNIVERSAL, TAG_SET, true, Concat(es));
    ElementParses(newSet);
    var front := WellFormedBodyOpens(SignedDataBody(der).value, newSet);
    SignersRead(op.signers, EvidenceAttributes(ev), es);
    ContainerReads(BuildBody(op.prefix, Concat(es)));
  }

  // ---------------------------------------------------------------- unannotated signers

  predicate AllElements(items: seq<Bytes>) {
    forall e :: e in items ==> IsElement(e)
  }

  lemma ListReads(items: seq<Bytes>)
    requires AllElements(items) && |Concat(items)| < LENGTH_LIMIT
    ensures SequenceElements(SequenceOf(items)) == items && |SequenceOf(items)| > 0
  {
    hide ParseRaw, IsElement, Split;
    EncodedIsElement(UNIVERSAL, TAG_SEQUENCE, true, Concat(items));
    SplitsConcat(items);
  }

  lemma CertificatesRead(ev: Evidence)
    requires AllElements(ev.certs) && |MarshalRaw(CertificateAttribute(ev).values)| < LENGTH_LIMIT
    ensures ReadAttribute(CertificateAttribute(ev)) == Evidence([], [], ev.certs)
  {
    hide SequenceElements, Encode;
    KnownOids();
    ListReads(ev.certs);
  }

  /** One optional tagged list followed by the other reads back as the two lists. */
  lemma TaggedListReads(k: nat, items: seq<Bytes>, x: Bytes)
    requires k < 30 && AllElements(items) && |TaggedList(k, items)| < LENGTH_LIMIT
    requires x == [] || exists y :: 0 < |y| < LENGTH_LIMIT && x == Encode(CONTEXT, k + 1, true, y)
    ensures Explicit(TaggedList(k, items) + x, k).Some?
    ensures var (c, rest) := Explicit(TaggedList(k, items) + x, k).value;
            SequenceElements(c) == items && rest == x
  {
    hide ParseRaw, ParseHeader, SequenceElements, IsElement, Encode;
    if items == [] {
      assert TaggedList(k, items) + x == x;
      assert SequenceElements([]) == [] by { NoElements(); }
      if x != [] {
        var y :| 0 < |y| < LENGTH_LIMIT && x == Encode(CONTEXT, k + 1, true, y);
        EncodedIsElement(CONTEXT, k + 1, true, y);
        var h, rest := RawElim(x, Raw(CONTEXT, true, k + 1, y, x), []);
      }
    } else {
      var seq_ := SequenceOf(items);
      ListReads(items);
      var e := Encode(CONTEXT, k, true, seq_);
      EncodeReads(CONTEXT, k, true, seq_, x);
      var h, rest := RawElim(e + x, Raw(CONTEXT, true, k, seq_, e), x);
    }
  }

  lemma NoElements()
    ensures SequenceElements([]) == []
  {
  }

  lemma RevocationIntro(a: Attribute, v: Raw, z: Bytes, crls: Bytes, rest: Bytes, ocsp: Bytes, z': Bytes)
    requires a.oid == REVOCATION_VALUES && ParseRaw(a.values.bytes) == Some((v, z))
    requires IsUniversal(v, TAG_SEQUENCE, true)
    requires Explicit(v.bytes, 0) == Some((crls, rest)) && Explicit(rest, 1) == Some((ocsp, z'))
    ensures ReadAttribute(a) == Evidence(SequenceElements(ocsp), SequenceElements(crls), [])
  {
    hide ParseRaw, Explicit, SequenceElements;
  }

  lemma TaggedListForm(k: nat, items: seq<Bytes>)
    requires k < 31 && |TaggedList(k, items)| < LENGTH_LIMIT
    ensures TaggedList(k, items) == []
      || exists y :: 0 < |y| < LENGTH_LIMIT && TaggedList(k, items) == Encode(CONTEXT, k, true, y)
  {
    hide Encode;
    if items != [] {
      var y := SequenceOf(items);
      assert 0 < |y| < LENGTH_LIMIT && TaggedList(k, items) == Encode(CONTEXT, k, true, y);
    }
  }

  lemma RevocationRead(ev: Evidence)
    requires AllElements(ev.crls) && AllElements(ev.ocsp)
    requires |MarshalRaw(RevocationAttribute(ev).values)| < LENGTH_LIMIT
    ensures ReadAttribute(RevocationAttribute(ev)) == Evidence(ev.ocsp, ev.crls, [])
  {
    hide ParseRaw, Explicit, SequenceElements, AllElements, Encode, TaggedList, ReadAttribute;
    var t0, t1 := TaggedList(0, ev.crls), TaggedList(1, ev.ocsp);
    var seq_ := Encode(UNIVERSAL, TAG_SEQUENCE, true, t0 + t1);
    assert |seq_| < LENGTH_LIMIT && |t0 + t1| < |seq_|;
    EncodedIsElement(UNIVERSAL, TAG_SEQUENCE, true, t0 + t1);
    TaggedListForm(1, ev.ocsp);
    TaggedListReads(0, ev.crls, t1);
    TaggedListReads(1, ev.ocsp, []);
    assert t1 + [] == t1;
    var (crls, rest) := Explicit(t0 + t1, 0).value;
    var (ocsp, z) := Explicit(t1, 1).value;
    RevocationIntro(RevocationAttribute(ev), Raw(UNIVERSAL, true, TAG_SEQUENCE, t0 + t1, seq_), [], crls, rest, ocsp,
      z);
  }

  lemma EvidenceReads(ev: Evidence)
    requires AllElements(ev.crls) && AllElements(ev.ocsp) && AllElements(ev.certs)
    requires GoodAttributes(EvidenceAttributes(ev)) && |MarshalAttributes(EvidenceAttributes(ev))| < LENGTH_LIMIT
    ensures ReadAttributes(EvidenceAttributes(ev)) == ev
  {
    hide ReadAttribute, AllElements, GoodAttribute, MarshalAttribute, RevocationAttribute, CertificateAttribute;
    var attrs := EvidenceAttributes(ev);
    if |ev.ocsp| > 0 || |ev.crls| > 0 {
      MarshalBound(RevocationAttribute(ev)) by { assert attrs[0] == RevocationAttribute(ev); }
      MarshalPartBound(attrs, 0);
      RevocationRead(ev);
    }
    if |ev.certs| > 0 {
      var last := |attrs| - 1;
      assert attrs[last] == CertificateAttribute(ev);
      MarshalBound(attrs[last]);
      MarshalPartBound(attrs, last);
      CertificatesRead(ev);
    }
    ReadPieces(ev);
  }

  lemma ReadPieces(ev: Evidence)
    ensures ReadAttributes(EvidenceAttributes(ev)) ==
      Plus(if |ev.ocsp| > 0 || |ev.crls| > 0 then ReadAttribute(RevocationAttribute(ev)) else NO_EVIDENCE,
           if |ev.certs| > 0 then ReadAttribute(CertificateAttribute(ev)) else NO_EVIDENCE)
  {
    hide ReadAttribute, RevocationAttribute, CertificateAttribute;
    var rev := if |ev.ocsp| > 0 || |ev.crls| > 0 then [RevocationAttribute(ev)] else [];
    var cert := if |ev.certs| > 0 then [CertificateAttribute(ev)] else [];
    ReadAppend(rev, cert);
    ReadOne(RevocationAttribute(ev));
    ReadOne(CertificateAttribute(ev));
  }

  lemma {:induction false} MarshalPartBound(list: seq<Attribute>, i: nat)
    requires GoodAttributes(list) && i < |list|
    ensures |MarshalAttribute(list[i])| <= |MarshalAttributes(list)|
  {
    hide GoodAttribute, MarshalAttribute;
    if i > 0 { MarshalPartBound(list[1..], i - 1); }
  }

  lemma {:induction false} MarshalTailBound(a: seq<Attribute>, b: seq<Attribute>)
    requires GoodAttributes(a) && GoodAttributes(b) && GoodAttributes(a + b)
    ensures |MarshalAttributes(b)| <= |MarshalAttributes(a + b)|
  {
    hide GoodAttribute, MarshalAttribute;
    if |a| == 0 {
      assert a + b == b;
    } else {
      assert (a + b)[1..] == a[1..] + b;
      MarshalTailBound(a[1..], b);
    }
  }

  ghost predicate Unannotated(e: Bytes) {
    !HasAttribute(UnsignedAttributes(e), REVOCATION_VALUES) && !HasAttribute(UnsignedAttributes(e), CERTIFICATE_VALUES)
  }

  lemma {:induction false} ForeignRead(list: seq<Attribute>)
    requires !HasAttribute(list, REVOCATION_VALUES) && !HasAttribute(list, CERTIFICATE_VALUES)
    ensures ReadAttributes(list) == NO_EVIDENCE
  {
    hide ParseRaw, SequenceElements, Explicit;
    if |list| > 0 {
      assert forall i :: 0 <= i < |list| - 1 ==> list[1..][i] == list[i + 1];
      ForeignRead(list[1..]);
    }
  }

  lemma AllMissing(list: seq<Attribute>, ev: Evidence)
    requires !HasAttribute(list, REVOCATION_VALUES) && !HasAttribute(list, CERTIFICATE_VALUES)
    ensures AddMissing(list, EvidenceAttributes(ev)) == list + EvidenceAttributes(ev)
  {
    hide GoodAttributes, AddMissing, HasAttribute, RevocationAttribute, CertificateAttribute;
    KnownOids();
    EvidenceTypes(ev);
    var rev, cert := RevocationAttribute(ev), CertificateAttribute(ev);
    if |ev.certs| > 0 {
      OneMissing(list, cert);
      if |ev.ocsp| > 0 || |ev.crls| > 0 {
        NotThereYet(list, rev, CERTIFICATE_VALUES);
        OneMissing(list + [rev], cert);
        AddMissingStep(list, rev, [cert]);
        assert [rev] + [cert] == [rev, cert] && list + [rev] + [cert] == list + [rev, cert];
        assert EvidenceAttributes(ev) == [rev, cert];
      } else {
        assert EvidenceAttributes(ev) == [cert];
      }
    } else if |ev.ocsp| > 0 || |ev.crls| > 0 {
      OneMissing(list, rev);
      assert EvidenceAttributes(ev) == [rev];
    } else {
      AddMissingNone(list);
      assert list + [] == list;
    }
  }

  lemma EvidenceTypes(ev: Evidence)
    ensures RevocationAttribute(ev).oid == REVOCATION_VALUES && CertificateAttribute(ev).oid == CERTIFICATE_VALUES
  {
    hide Encode;
  }

  lemma NotThereYet(list: seq<Attribute>, a: Attribute, oid: Oid)
    requires !HasAttribute(list, oid) && a.oid != oid
    ensures !HasAttribute(list + [a], oid)
  {
  }

  lemma OneMissing(list: seq<Attribute>, a: Attribute)
    requires !HasAttribute(list, a.oid)
    ensures AddMissing(list, [a]) == list + [a]
  {
    hide HasAttribute, AddMissing, GoodAttributes;
    AddMissingStep(list, a, []);
    assert [a] + [] == [a];
    AddMissingNone(list + [a]);
  }

  lemma AddMissingNone(list: seq<Attribute>)
    ensures AddMissing(list, []) == list
  {
    hide GoodAttributes;
  }

  /** The evidence repeated n times over. */
  function Times(n: nat, ev: Evidence): (r: Evidence) {
    if n == 0 then NO_EVIDENCE else Plus(ev, Times(n - 1, ev))
  }

  lemma UnannotatedSigner(e: Bytes, ev: Evidence, e': Bytes)
    requires CleanSigner(e) && Unannotated(e)
    requires AllElements(ev.crls) && AllElements(ev.ocsp) && AllElements(ev.certs)
    requires GoodAttributes(EvidenceAttributes(ev))
    requires SignerWithEvidence(e, EvidenceAttributes(ev)) == Ok(e') && |e'| < LENGTH_LIMIT
    ensures ReadAttributes(AddMissing(UnsignedAttributes(e), EvidenceAttributes(ev))) == ev
  {
    hide AllElements, GoodAttributes, CleanSigner, SignerWithEvidence, ReadAttributes, EvidenceAttributes,
         MarshalAttributes, AddMissing, SealedAll, UnsignedAttributes, BuildSigner, SignedPart;
    var old_, attrs := UnsignedAttributes(e), EvidenceAttributes(ev);
    SignerRewritten(e, attrs, e');
    AllMissing(old_, ev);
    MarshalTailBound(old_, attrs);
    EvidenceReads(ev);
    ReadAppend(old_, attrs);
    ForeignRead(old_);
    PlusLaws(ev, NO_EVIDENCE, NO_EVIDENCE);
  }

  /** The case the documentation promises: n signers, none annotated before, and evidence
      made of single elements: reading back gives exactly n copies of it, in order. */
  lemma RoundTripUnannotated(der: Bytes, ev: Evidence, o: Bytes)
    requires WellFormed(der) && AddLtv(der, ev) == Ok(o) && |o| < CONTAINER_LIMIT
    requires AllElements(ev.crls) && AllElements(ev.ocsp) && AllElements(ev.certs)
    requires OpenContainer(der).Ok? ==> forall e :: e in OpenContainer(der).value.signers ==> Unannotated(e)
    ensures OpenContainer(der).Ok?
    ensures EmbeddedEvidence(o) == Ok(Times(|OpenContainer(der).value.signers|, ev))
  {
    hide WellFormed, WellFormedSigner, SignerWithEvidence, OpenContainer, EvidenceAttributes, GoodAttributes,
         EmbeddedEvidence, Unannotated, CleanSigner, SignedDataBody, Splits, AddLtv;
    WellFormedIsCleanContainer(der);
    RoundTrip(der, ev, o);
    var es := Rewritten(der, ev, o);
    CarriedTimes(OpenContainer(der).value.signers, ev, es);
  }

  lemma {:induction false} CarriedTimes(signers: seq<Bytes>, ev: Evidence, es: seq<Bytes>)
    requires GoodAttributes(EvidenceAttributes(ev)) && |es| == |signers|
    requires AllElements(ev.crls) && AllElements(ev.ocsp) && AllElements(ev.certs)
    requires forall i :: 0 <= i < |es| ==> CleanSigner(signers[i]) && Unannotated(signers[i]) && |es[i]| < LENGTH_LIMIT
    requires forall i :: 0 <= i < |es| ==> SignerWithEvidence(signers[i], EvidenceAttributes(ev)) == Ok(es[i])
    ensures Carried(signers, EvidenceAttributes(ev)) == Times(|signers|, ev)
  {
    hide SignerWithEvidence, EvidenceAttributes, GoodAttributes, Unannotated, CleanSigner, AllElements,
         ReadAttributes, AddMissing, UnsignedAttributes, Plus;
    if |es| > 0 {
      assert forall i :: 0 <= i < |es| - 1 ==> signers[1..][i] == signers[i + 1] && es[1..][i] == es[i + 1];
      UnannotatedSigner(signers[0], ev, es[0]);
      CarriedTimes(signers[1..], ev, es[1..]);
    }
  }
}
