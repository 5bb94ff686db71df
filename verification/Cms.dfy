/**
 The ASN.1 shapes the long-term-validation code reads and writes: object
 identifiers, attributes, and records read field by field. A record reader skips
 an absent optional field, and ignores whatever follows the last field.
 */
module Cms {
  import opened Prelude
  import opened Der

  type Oid = seq<nat>

  const SIGNED_DATA: Oid := [1, 2, 840, 113549, 1, 7, 2]
  const REVOCATION_VALUES: Oid := [1, 2, 840, 113549, 1, 9, 16, 2, 24]
  const CERTIFICATE_VALUES: Oid := [1, 2, 840, 113549, 1, 9, 16, 2, 23]

  predicate IsUniversal(v: Raw, tag: nat, compound: bool) {
    v.cls == UNIVERSAL && v.tag == tag && v.compound == compound
  }

  // ---------------------------------------------------------------- object identifiers

  function ParseArcs(b: Bytes): (r: Option<seq<nat>>)
    decreases |b|
  {
    if |b| == 0 then Some([])
    else match ParseBase128(b, 0, 0)
      case None => None
      case Some((v, rest)) =>
        match ParseArcs(rest)
        case None => None
        case Some(arcs) => Some([v] + arcs)
  }

  /** The first number on the wire carries the first two arcs. */
  function FromArcs(arcs: seq<nat>): (oid: Oid)
    requires |arcs| > 0
    ensures ValidOid(oid) && ToArcs(oid) == arcs
  {
    var v := arcs[0];
    if v < 80 then [v / 40, v % 40] + arcs[1..] else [2, v - 80] + arcs[1..]
  }

  predicate ValidOid(oid: Oid) {
    |oid| >= 2 && oid[0] <= 2 && (oid[0] < 2 ==> oid[1] < 40)
  }

  function ToArcs(oid: Oid): (arcs: seq<nat>)
    requires ValidOid(oid)
  {
    [oid[0] * 40 + oid[1]] + oid[2..]
  }

  function EncodeArcs(arcs: seq<nat>): (r: Bytes) {
    if |arcs| == 0 then [] else EncodeBase128(arcs[0]) + EncodeArcs(arcs[1..])
  }

  function DecodeOid(b: Bytes): (r: Option<Oid>)
    ensures r.Some? ==> ValidOid(r.value)
  {
    if |b| == 0 then None
    else match ParseArcs(b)
      case None => None
      case Some(arcs) => if |arcs| == 0 then None else Some(FromArcs(arcs))
  }

  function EncodeOid(oid: Oid): (r: Bytes)
    requires ValidOid(oid)
  {
    EncodeArcs(ToArcs(oid))
  }

  lemma {:induction false} ArcsCanonical(b: Bytes, arcs: seq<nat>)
    requires ParseArcs(b) == Some(arcs)
    ensures EncodeArcs(arcs) == b
    decreases |b|
  {
    if |b| > 0 {
      hide ParseBase128;
      var (v, rest) := ParseBase128(b, 0, 0).value;
      Base128Canonical(b, 0, 0);
      ArcsCanonical(rest, arcs[1..]);
      assert [] + b == b;
    }
  }

  /** Decoding then encoding an identifier gives back its octets. */
  lemma OidCanonical(b: Bytes, oid: Oid)
    requires DecodeOid(b) == Some(oid)
    ensures EncodeOid(oid) == b
  {
    ArcsCanonical(b, ParseArcs(b).value);
  }

  predicate SmallArcs(arcs: seq<nat>) {
    forall i :: 0 <= i < |arcs| ==> arcs[i] < LENGTH_LIMIT
  }

  lemma ArcsCons(b: Bytes, v: nat, rest: Bytes, tail: seq<nat>)
    requires ParseBase128(b, 0, 0) == Some((v, rest)) && ParseArcs(rest) == Some(tail)
    ensures ParseArcs(b) == Some([v] + tail)
  {
    hide ParseBase128;
  }

  lemma {:induction false} ArcsRead(arcs: seq<nat>)
    requires SmallArcs(arcs)
    ensures ParseArcs(EncodeArcs(arcs)) == Some(arcs)
  {
    hide ParseBase128, EncodeBase128, ParseArcs;
    if |arcs| > 0 {
      var tail := arcs[1..];
      ArcsRead(tail);
      OneMoreArc(arcs[0], EncodeArcs(tail), tail);
      assert arcs == [arcs[0]] + tail;
    } else {
      NoArcs();
    }
  }

  lemma NoArcs()
    ensures ParseArcs([]) == Some([])
  {
  }

  lemma OneMoreArc(v: nat, rest: Bytes, tail: seq<nat>)
    requires v < LENGTH_LIMIT && ParseArcs(rest) == Some(tail)
    ensures ParseArcs(EncodeBase128(v) + rest) == Some([v] + tail)
  {
    hide ParseBase128, EncodeBase128, ParseArcs;
    Base128Reads(v, rest);
    ArcsCons(EncodeBase128(v) + rest, v, rest, tail);
  }

  lemma {:induction false} ArcsParsedSmall(b: Bytes, arcs: seq<nat>)
    requires ParseArcs(b) == Some(arcs)
    ensures SmallArcs(arcs)
    decreases |b|
  {
    if |b| > 0 {
      var (v, rest) := ParseBase128(b, 0, 0).value;
      Base128Small(b, 0, 0);
      hide ParseBase128;
      ArcsParsedSmall(rest, arcs[1..]);
    }
  }

  lemma {:induction false} Base128Small(b: Bytes, shifted: nat, acc: nat)
    requires ParseBase128(b, shifted, acc).Some?
    ensures ParseBase128(b, shifted, acc).value.0 < LENGTH_LIMIT
    decreases |b|
  {
    if b[0] >= 128 {
      Base128Small(b[1..], shifted + 1, acc * 128 + b[0] % 128);
    }
  }

  /** Identifiers whose numbers fit 31 bits: the ones that can come off the wire. */
  predicate WireOid(oid: Oid) {
    ValidOid(oid) && SmallArcs(ToArcs(oid))
  }

  lemma OidReads(oid: Oid)
    requires WireOid(oid)
    ensures DecodeOid(EncodeOid(oid)) == Some(oid)
  {
    var arcs := ToArcs(oid);
    ArcsRead(arcs);
    assert ParseArcs([]) == Some([]);
    assert FromArcs(arcs) == oid;
  }

  lemma OidParsedIsWire(b: Bytes, oid: Oid)
    requires DecodeOid(b) == Some(oid)
    ensures WireOid(oid)
  {
    ArcsParsedSmall(b, ParseArcs(b).value);
  }

  // ---------------------------------------------------------------- attributes

  /** An attribute: its type, and its value set (any element is accepted as the set). */
  datatype Attribute = Attribute(oid: Oid, values: Raw)

  function ParseOidField(b: Bytes): (r: Option<(Oid, Bytes)>)
    ensures r.Some? ==> ValidOid(r.value.0)
  {
    match ParseRaw(b)
    case None => None
    case Some((v, rest)) =>
      if !IsUniversal(v, TAG_OID, false) then None
      else match DecodeOid(v.bytes)
        case None => None
        case Some(oid) => Some((oid, rest))
  }

  function EncodeOidField(oid: Oid): (r: Bytes)
    requires ValidOid(oid)
  {
    Encode(UNIVERSAL, TAG_OID, false, EncodeOid(oid))
  }

  /** The octets of a raw value: verbatim when it was read, freshly encoded when it was built. */
  function MarshalRaw(v: Raw): (r: Bytes)
    requires |v.full| > 0 || (v.cls < 4 && v.tag < 31)
  {
    if |v.full| > 0 then v.full else Encode(v.cls, v.tag, v.compound, v.bytes)
  }

  /** A raw value that was read off the wire, or one built here and not yet encoded. */
  predicate GoodRaw(v: Raw) {
    if |v.full| > 0 then ParseRaw(v.full) == Some((v, [])) else v.cls < 4 && v.tag < 31
  }

  predicate GoodAttribute(a: Attribute) {
    WireOid(a.oid) && GoodRaw(a.values)
  }

  function MarshalAttribute(a: Attribute): (r: Bytes)
    requires GoodAttribute(a)
  {
    Encode(UNIVERSAL, TAG_SEQUENCE, true, EncodeOidField(a.oid) + MarshalRaw(a.values))
  }

  /** One attribute; octets after its two fields are dropped. */
  function ParseAttribute(b: Bytes): (r: Option<(Attribute, Bytes)>)
    ensures r.Some? ==> |r.value.1| < |b|
  {
    match ParseRaw(b)
    case None => None
    case Some((v, rest)) =>
      if !IsUniversal(v, TAG_SEQUENCE, true) then None
      else match ParseOidField(v.bytes)
        case None => None
        case Some((oid, r1)) =>
          match ParseRaw(r1)
          case None => None
          case Some((values, _)) => Some((Attribute(oid, values), rest))
  }

  /** The attribute as a reader sees it once it has been encoded. */
  function Sealed(a: Attribute): (r: Attribute)
    requires GoodAttribute(a)
  {
    a.(values := a.values.(full := MarshalRaw(a.values)))
  }

  lemma OidFieldReads(oid: Oid, x: Bytes)
    requires WireOid(oid) && |EncodeOid(oid)| < LENGTH_LIMIT
    ensures ParseOidField(EncodeOidField(oid) + x) == Some((oid, x))
  {
    hide ParseRaw, DecodeOid, Encode, EncodeOid;
    EncodeReads(UNIVERSAL, TAG_OID, false, EncodeOid(oid), x);
    OidReads(oid);
  }

  lemma RawMarshalReads(v: Raw, x: Bytes)
    requires GoodRaw(v) && |MarshalRaw(v)| < LENGTH_LIMIT
    ensures ParseRaw(MarshalRaw(v) + x) == Some((v.(full := MarshalRaw(v)), x))
  {
    hide ParseRaw;
    if |v.full| > 0 {
      RawLocal(v.full, v, [], x);
    } else {
      EncodeReads(v.cls, v.tag, v.compound, v.bytes, x);
    }
  }

  lemma AttributeIntro(v: Raw, rest: Bytes, b: Bytes, oid: Oid, r1: Bytes, values: Raw, extra: Bytes)
    requires ParseRaw(b) == Some((v, rest)) && IsUniversal(v, TAG_SEQUENCE, true)
    requires ParseOidField(v.bytes) == Some((oid, r1)) && ParseRaw(r1) == Some((values, extra))
    ensures ParseAttribute(b) == Some((Attribute(oid, values), rest))
  {
    hide ParseRaw, ParseOidField;
  }

  /** An encoded attribute is read back, whatever follows it. */
  lemma AttributeReads(a: Attribute, x: Bytes)
    requires GoodAttribute(a) && |MarshalAttribute(a)| < LENGTH_LIMIT
    ensures ParseAttribute(MarshalAttribute(a) + x) == Some((Sealed(a), x))
  {
    hide ParseRaw, ParseOidField, ParseAttribute, EncodeOid, DecodeOid;
    var vals := MarshalRaw(a.values);
    var body := EncodeOidField(a.oid) + vals;
    hide GoodRaw, WireOid, MarshalRaw;
    EncodeReads(UNIVERSAL, TAG_SEQUENCE, true, body, x);
    OidFieldReads(a.oid, vals);
    RawMarshalReads(a.values, []);
    assert vals + [] == vals;
    var e := MarshalAttribute(a);
    AttributeIntro(Raw(UNIVERSAL, true, TAG_SEQUENCE, body, e), x, e + x, a.oid, vals, Sealed(a).values, []);
  }

  /** An attribute element whose contents end after its type and value set. */
  predicate TwoFields(e: Bytes) {
    match ParseRaw(e)
    case None => false
    case Some((v, _)) =>
      match ParseOidField(v.bytes)
      case None => false
      case Some((_, r1)) => ParseRaw(r1).Some? && ParseRaw(r1).value.1 == []
  }

  /** Everything a reader of an attribute learned about its octets. */
  lemma AttributeElim(b: Bytes, a: Attribute, rest: Bytes) returns (e: Bytes, extra: Bytes)
    requires ParseAttribute(b) == Some((a, rest))
    ensures IsElement(e) && e + rest == b && GoodAttribute(a) && |a.values.full| > 0
    ensures e == Encode(UNIVERSAL, TAG_SEQUENCE, true, EncodeOidField(a.oid) + a.values.full + extra)
    ensures ParseAttribute(e) == Some((a, [])) && (TwoFields(e) <==> extra == [])
  {
    hide ParseOidField, DecodeOid, Encode, EncodeOid, WireOid, ParseRaw, ParseAttribute, IsElement, GoodAttribute,
         TwoFields;
    var v, r1;
    v, r1, extra := AttributeParts(b, a, rest);
    e := v.full;
    ElementOfRaw(b, v, rest);
    RawCanonical(b, v, rest);
    ElementOfRaw(r1, a.values, extra);
    OidFieldCanonical(v.bytes, a.oid, r1);
    assert EncodeOidField(a.oid) + r1 == EncodeOidField(a.oid) + a.values.full + extra;
    AttributeIntro(v, [], e, a.oid, r1, a.values, extra);
    TwoFieldsOf(e, v, a.oid, r1, a.values, extra);
    GoodParsed(a);
  }

  lemma AttributeParts(b: Bytes, a: Attribute, rest: Bytes) returns (v: Raw, r1: Bytes, extra: Bytes)
    requires ParseAttribute(b) == Some((a, rest))
    ensures ParseRaw(b) == Some((v, rest)) && IsUniversal(v, TAG_SEQUENCE, true)
    ensures ParseOidField(v.bytes) == Some((a.oid, r1)) && ParseRaw(r1) == Some((a.values, extra))
  {
    hide ParseOidField, ParseRaw;
    v := ParseRaw(b).value.0;
    r1 := ParseOidField(v.bytes).value.1;
    extra := ParseRaw(r1).value.1;
  }

  lemma ElementOfRaw(b: Bytes, v: Raw, rest: Bytes)
    requires ParseRaw(b) == Some((v, rest))
    ensures ParseRaw(v.full) == Some((v, [])) && IsElement(v.full) && v.full + rest == b && |v.full| > 0
  {
    RawLocal(b, v, rest, []);
    assert v.full + [] == v.full;
  }

  lemma TwoFieldsOf(e: Bytes, v: Raw, oid: Oid, r1: Bytes, values: Raw, extra: Bytes)
    requires ParseRaw(e) == Some((v, [])) && ParseOidField(v.bytes) == Some((oid, r1))
      && ParseRaw(r1) == Some((values, extra))
    ensures TwoFields(e) <==> extra == []
  {
    hide ParseRaw, ParseOidField;
  }

  lemma GoodParsed(a: Attribute)
    requires WireOid(a.oid) && |a.values.full| > 0 && ParseRaw(a.values.full) == Some((a.values, []))
    ensures GoodAttribute(a)
  {
    hide ParseRaw, WireOid;
  }

  lemma OidFieldCanonical(b: Bytes, oid: Oid, rest: Bytes)
    requires ParseOidField(b) == Some((oid, rest))
    ensures WireOid(oid) && b == EncodeOidField(oid) + rest
  {
    hide ParseRaw, DecodeOid, Encode, EncodeOid, WireOid;
    var v := ParseRaw(b).value.0;
    RawCanonical(b, v, rest);
    OidCanonical(v.bytes, oid);
    OidParsedIsWire(v.bytes, oid);
  }

  /** Re-encoding a parsed attribute is the identity exactly when it had no third field. */
  lemma AttributeKept(e: Bytes, a: Attribute, extra: Bytes)
    requires GoodAttribute(a) && |a.values.full| > 0
    requires e == Encode(UNIVERSAL, TAG_SEQUENCE, true, EncodeOidField(a.oid) + a.values.full + extra)
    ensures MarshalAttribute(a) == e <==> extra == []
  {
    var body := EncodeOidField(a.oid) + a.values.full;
    if extra == [] {
      assert body + extra == body;
    } else {
      assert MarshalAttribute(a) == Encode(UNIVERSAL, TAG_SEQUENCE, true, body);
      EncodeMonotone(body, body + extra);
    }
  }

  lemma EncodeMonotone(x: Bytes, y: Bytes)
    requires |x| < |y|
    ensures Encode(UNIVERSAL, TAG_SEQUENCE, true, x) != Encode(UNIVERSAL, TAG_SEQUENCE, true, y)
  {
    hide EncodeLength;
    LengthMonotone(|x|, |y|);
    assert |Encode(UNIVERSAL, TAG_SEQUENCE, true, x)| == 1 + |EncodeLength(|x|)| + |x|;
    assert |Encode(UNIVERSAL, TAG_SEQUENCE, true, y)| == 1 + |EncodeLength(|y|)| + |y|;
  }

  lemma {:induction false} OctetsMonotone(m: nat, n: nat)
    requires m <= n
    ensures |LengthOctets(m)| <= |LengthOctets(n)|
    decreases n
  {
    if m > 0 {
      OctetsMonotone(m / 256, n / 256);
    }
  }

  lemma LengthMonotone(m: nat, n: nat)
    requires m <= n
    ensures |EncodeLength(m)| <= |EncodeLength(n)|
  {
    OctetsMonotone(m, n);
  }

  // ---------------------------------------------------------------- attribute lists

  function ParseAttributes(b: Bytes): (r: Option<seq<Attribute>>)
    decreases |b|
  {
    if |b| == 0 then Some([])
    else match ParseAttribute(b)
      case None => None
      case Some((a, rest)) =>
        match ParseAttributes(rest)
        case None => None
        case Some(as_) => Some([a] + as_)
  }

  ghost predicate GoodAttributes(list: seq<Attribute>) {
    forall i :: 0 <= i < |list| ==> GoodAttribute(list[i])
  }

  function MarshalAttributes(list: seq<Attribute>): (r: Bytes)
    requires GoodAttributes(list)
  {
    if |list| == 0 then [] else MarshalAttribute(list[0]) + MarshalAttributes(list[1..])
  }

  function SealedAll(list: seq<Attribute>): (r: seq<Attribute>)
    requires GoodAttributes(list)
    ensures |r| == |list| && forall i :: 0 <= i < |list| ==> r[i] == Sealed(list[i])
  {
    if |list| == 0 then [] else [Sealed(list[0])] + SealedAll(list[1..])
  }

  /** The reader of an attribute list, as a loop over the remaining octets. */
  method ParseAttributeList(b: Bytes) returns (r: Option<seq<Attribute>>)
    ensures r == ParseAttributes(b)
  {
    hide ParseAttribute;
    var list: seq<Attribute> := [];
    var rest := b;
    assert ParseAttributes(b).Some? ==> [] + ParseAttributes(b).value == ParseAttributes(b).value;
    while |rest| > 0
      invariant ParseAttributes(b) == match ParseAttributes(rest) case None => None case Some(l) => Some(list + l)
      decreases |rest|
    {
      var parsed := ParseAttribute(rest);
      if parsed.None? {
        return None;
      }
      ghost var tail := ParseAttributes(parsed.value.1);
      if tail.Some? {
        assert list + ([parsed.value.0] + tail.value) == list + [parsed.value.0] + tail.value;
      }
      list := list + [parsed.value.0];
      rest := parsed.value.1;
    }
    assert list + [] == list;
    return Some(list);
  }

  lemma AttributesCons(b: Bytes, a: Attribute, rest: Bytes, tail: seq<Attribute>)
    requires ParseAttribute(b) == Some((a, rest)) && ParseAttributes(rest) == Some(tail)
    ensures ParseAttributes(b) == Some([a] + tail)
  {
    hide ParseAttribute;
  }

  lemma {:induction false} AttributesRead(list: seq<Attribute>)
    requires GoodAttributes(list) && |MarshalAttributes(list)| < LENGTH_LIMIT
    ensures ParseAttributes(MarshalAttributes(list)) == Some(SealedAll(list))
  {
    hide ParseAttribute, GoodAttribute, MarshalAttribute, Sealed;
    if |list| > 0 {
      var rest := MarshalAttributes(list[1..]);
      AttributeReads(list[0], rest);
      AttributesRead(list[1..]);
      AttributesCons(MarshalAttribute(list[0]) + rest, Sealed(list[0]), rest, SealedAll(list[1..]));
    }
  }

  lemma {:induction false} AttributesParsedGood(b: Bytes, list: seq<Attribute>)
    requires ParseAttributes(b) == Some(list)
    ensures GoodAttributes(list)
    ensures forall i :: 0 <= i < |list| ==> |list[i].values.full| > 0
    decreases |b|
  {
    hide ParseAttribute, GoodAttribute;
    if |b| > 0 {
      var (a, rest) := ParseAttribute(b).value;
      var e, extra := AttributeElim(b, a, rest);
      AttributesParsedGood(rest, list[1..]);
    }
  }

  lemma SealedAgain(a: Attribute)
    requires GoodAttribute(a) && |MarshalRaw(a.values)| < LENGTH_LIMIT
    ensures GoodAttribute(Sealed(a)) && MarshalAttribute(Sealed(a)) == MarshalAttribute(a)
    ensures Sealed(a).oid == a.oid && Sealed(a).values.bytes == a.values.bytes
  {
    hide ParseRaw;
    RawMarshalReads(a.values, []);
    assert MarshalRaw(a.values) + [] == MarshalRaw(a.values);
  }

  lemma {:induction false} SealedAllAgain(list: seq<Attribute>)
    requires GoodAttributes(list) && |MarshalAttributes(list)| < LENGTH_LIMIT
    ensures GoodAttributes(SealedAll(list)) && MarshalAttributes(SealedAll(list)) == MarshalAttributes(list)
  {
    hide GoodAttribute, MarshalAttribute, Sealed;
    if |list| > 0 {
      MarshalBound(list[0]);
      SealedAgain(list[0]);
      SealedAllAgain(list[1..]);
      assert SealedAll(list)[1..] == SealedAll(list[1..]);
    }
  }

  lemma MarshalBound(a: Attribute)
    requires GoodAttribute(a)
    ensures |MarshalRaw(a.values)| < |MarshalAttribute(a)|
  {
    hide MarshalRaw, EncodeOid, GoodRaw, WireOid;
  }

  // ---------------------------------------------------------------- records

  datatype Field = Any | Integer | Octets | Algorithm | OptContext(tag: nat)

  /** A minimal two's-complement integer of at most 64 bits. */
  predicate MinimalInteger(b: Bytes) {
    0 < |b| <= 8 && (|b| > 1 ==> !(b[0] == 0 && b[1] < 128) && !(b[0] == 255 && b[1] >= 128))
  }

  predicate AlgorithmBody(b: Bytes) {
    match ParseOidField(b)
    case None => false
    case Some((_, rest)) => |rest| == 0 || ParseRaw(rest).Some?
  }

  /** Whether a mandatory field takes this element. */
  predicate Accepts(f: Field, v: Raw) {
    match f
    case Any => true
    case Integer => IsUniversal(v, TAG_INTEGER, false) && MinimalInteger(v.bytes)
    case Octets => IsUniversal(v, TAG_OCTETS, false)
    case Algorithm => IsUniversal(v, TAG_SEQUENCE, true) && AlgorithmBody(v.bytes)
    case OptContext(k) => v.cls == CONTEXT && v.tag == k
  }

  /** An optional field is absent at the end, or when the next element is another one. */
  predicate AbsentHere(b: Bytes, k: nat) {
    |b| == 0 || (ParseHeader(b).Some? && !(ParseHeader(b).value.0.cls == CONTEXT && ParseHeader(b).value.0.tag == k))
  }

  function SkipField(b: Bytes, f: Field): (r: Option<Bytes>) {
    if f.OptContext? && AbsentHere(b, f.tag) then Some(b)
    else match ParseRaw(b)
      case None => None
      case Some((v, rest)) => if Accepts(f, v) then Some(rest) else None
  }

  function SkipFields(b: Bytes, fs: seq<Field>): (r: Option<Bytes>)
    decreases |fs|
  {
    if |fs| == 0 then Some(b)
    else match SkipField(b, fs[0])
      case None => None
      case Some(rest) => SkipFields(rest, fs[1..])
  }

  function Mandatory(fs: seq<Field>): (n: nat) {
    if |fs| == 0 then 0 else (if fs[0].OptContext? then 0 else 1) + Mandatory(fs[1..])
  }

  /** The next element is a universal one, so no optional context field claims it. */
  predicate LeadsUniversal(b: Bytes) {
    ParseHeader(b).Some? && ParseHeader(b).value.0.cls == UNIVERSAL
  }

  lemma HeaderOfElement(e: Bytes, x: Bytes, y: Bytes)
    requires IsElement(e)
    ensures ParseHeader(e + x).Some? && ParseHeader(e + y).Some?
    ensures ParseHeader(e + x).value.0 == ParseHeader(e + y).value.0
    ensures ParseHeader(e + x).value.0.cls == ParseRaw(e).value.0.cls
    ensures ParseHeader(e + x).value.0.tag == ParseRaw(e).value.0.tag
  {
    hide ParseHeader, ParseRaw;
    var v := ParseRaw(e).value.0;
    ElementReads(e, x);
    ElementReads(e, y);
    var h, r := RawElim(e + x, v, x);
    var h', r' := RawElim(e + y, v, y);
  }

  lemma AbsentAfterElement(e: Bytes, x: Bytes, y: Bytes, k: nat)
    requires IsElement(e)
    ensures AbsentHere(e + x, k) == AbsentHere(e + y, k)
  {
    hide ParseHeader, IsElement;
    HeaderOfElement(e, x, y);
  }

  lemma SkipTaken(b: Bytes, f: Field, v: Raw, rest: Bytes)
    requires ParseRaw(b) == Some((v, rest)) && Accepts(f, v)
    requires f.OptContext? ==> !AbsentHere(b, f.tag)
    ensures SkipField(b, f) == Some(rest)
  {
    hide ParseRaw, Accepts, AbsentHere;
  }

  /** The leading fields of b are whole elements; what comes after them may be replaced. */
  lemma {:induction false} SkipReplace(b: Bytes, fs: seq<Field>, rest: Bytes, x: Bytes) returns (es: seq<Bytes>)
    requires SkipFields(b, fs) == Some(rest)
    requires LeadsUniversal(rest) && LeadsUniversal(x)
    ensures forall e :: e in es ==> IsElement(e)
    ensures |es| >= Mandatory(fs) && Concat(es) + rest == b
    ensures SkipFields(Concat(es) + x, fs) == Some(x)
    decreases |fs|
  {
    if |fs| == 0 {
      es := [];
      assert Concat([]) + rest == rest && Concat([]) + x == x;
    } else {
      hide ParseRaw, Accepts, ParseHeader;
      var f := fs[0];
      if f.OptContext? && AbsentHere(b, f.tag) {
        es := SkipReplace(b, fs[1..], rest, x);
        SkipAbsent(es, f, rest, x);
      } else {
        var (v, b1) := ParseRaw(b).value;
        var es1 := SkipReplace(b1, fs[1..], rest, x);
        es := SkipPresent(b, f, v, b1, es1, rest, x);
      }
    }
  }

  lemma SkipAbsent(es: seq<Bytes>, f: Field, rest: Bytes, x: Bytes)
    requires f.OptContext? && AbsentHere(Concat(es) + rest, f.tag)
    requires forall e :: e in es ==> IsElement(e)
    requires LeadsUniversal(x)
    ensures SkipField(Concat(es) + x, f) == Some(Concat(es) + x)
  {
    hide ParseHeader, ParseRaw, IsElement;
    if |es| == 0 {
      assert Concat(es) + x == x;
    } else {
      var tail := Concat(es[1..]);
      assert Concat(es) + rest == es[0] + (tail + rest) && Concat(es) + x == es[0] + (tail + x);
      AbsentAfterElement(es[0], tail + rest, tail + x, f.tag);
    }
  }

  lemma SkipPresent(b: Bytes, f: Field, v: Raw, b1: Bytes, es1: seq<Bytes>, rest: Bytes, x: Bytes)
    returns (es: seq<Bytes>)
    requires ParseRaw(b) == Some((v, b1)) && Accepts(f, v) && Concat(es1) + rest == b1
    requires f.OptContext? ==> !AbsentHere(b, f.tag)
    requires forall e :: e in es1 ==> IsElement(e)
    ensures es == [v.full] + es1 && forall e :: e in es ==> IsElement(e)
    ensures Concat(es) + rest == b && Concat(es) + x == v.full + (Concat(es1) + x)
    ensures SkipField(Concat(es) + x, f) == Some(Concat(es1) + x)
  {
    hide ParseRaw, Accepts, AbsentHere;
    es := [v.full] + es1;
    assert es[1..] == es1;
    RawLocal(b, v, b1, []);
    assert v.full + [] == v.full;
    assert IsElement(v.full);
    hide IsElement;
    var y := Concat(es1) + x;
    assert Concat(es) + x == v.full + y;
    RawLocal(b, v, b1, y);
    if f.OptContext? {
      AbsentAfterElement(v.full, b1, y, f.tag);
    }
    SkipTaken(v.full + y, f, v, y);
  }
}
