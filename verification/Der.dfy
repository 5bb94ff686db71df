/**
 The subset of Distinguished Encoding Rules that the container code relies on:
 reading one tag-length-value element, printing one, and cutting a byte string
 into consecutive elements. Lengths are minimal and definite; a length of 2^31 or
 more is refused by the reader although the printer can produce it.
 */
module Der {
  import opened Prelude

  const LENGTH_LIMIT := 0x8000_0000

  const UNIVERSAL := 0
  const CONTEXT := 2
  const TAG_INTEGER := 2
  const TAG_OCTETS := 4
  const TAG_OID := 6
  const TAG_SEQUENCE := 16
  const TAG_SET := 17

  datatype Header = Header(cls: nat, compound: bool, tag: nat, length: nat)

  /** One element as read: its header fields, its contents and its full encoding. */
  datatype Raw = Raw(cls: nat, compound: bool, tag: nat, bytes: Bytes, full: Bytes)

  /** rest is what is left of b after some leading bytes were consumed. */
  predicate IsSuffix(rest: Bytes, b: Bytes) {
    && |rest| <= |b|
    && rest == b[|b| - |rest|..]
  }

  /** The leading bytes of b in front of its suffix rest. */
  function Used(b: Bytes, rest: Bytes): (p: Bytes)
    requires |rest| <= |b|
    ensures |p| == |b| - |rest|
    ensures IsSuffix(rest, b) ==> p + rest == b
  {
    b[..|b| - |rest|]
  }

  // ---------------------------------------------------------------- base 128

  /** A base-128 integer: at most five groups, no leading zero group, at most 2^31 - 1. */
  function ParseBase128(b: Bytes, shifted: nat, acc: nat): (r: Option<(nat, Bytes)>)
    ensures r.Some? ==> |r.value.1| < |b| && IsSuffix(r.value.1, b)
    decreases |b|
  {
    if |b| == 0 || shifted == 5 || (shifted == 0 && b[0] == 0x80) then None
    else
      var v := acc * 128 + b[0] % 128;
      if b[0] >= 128 then ParseBase128(b[1..], shifted + 1, v)
      else if v < LENGTH_LIMIT then Some((v, b[1..]))
      else None
  }

  lemma {:induction false} Base128Local(b: Bytes, shifted: nat, acc: nat, v: nat, rest: Bytes, x: Bytes)
    requires ParseBase128(b, shifted, acc) == Some((v, rest))
    ensures ParseBase128(Used(b, rest) + x, shifted, acc) == Some((v, x))
    decreases |b|
  {
    var p := Used(b, rest) + x;
    if b[0] >= 128 {
      assert p[1..] == Used(b[1..], rest) + x;
      Base128Local(b[1..], shifted + 1, acc * 128 + b[0] % 128, v, rest, x);
    } else {
      assert p[1..] == x;
    }
  }

  /** Every group but the last of a base-128 integer carries the continuation bit. */
  function HighGroups(n: nat): (r: Bytes) {
    if n < 128 then [n + 128] else HighGroups(n / 128) + [n % 128 + 128]
  }

  function EncodeBase128(n: nat): (r: Bytes) {
    if n < 128 then [n] else HighGroups(n / 128) + [n % 128]
  }

  lemma {:induction false} Base128Canonical(b: Bytes, shifted: nat, acc: nat)
    requires ParseBase128(b, shifted, acc).Some?
    requires (shifted == 0 && acc == 0) || (shifted > 0 && acc > 0)
    ensures var (v, rest) := ParseBase128(b, shifted, acc).value;
            EncodeBase128(v) + rest == (if shifted == 0 then [] else HighGroups(acc)) + b
    decreases |b|
  {
    var v' := acc * 128 + b[0] % 128;
    assert v' / 128 == acc && v' % 128 == b[0] % 128;
    assert b == [b[0]] + b[1..];
    if b[0] >= 128 {
      Base128Canonical(b[1..], shifted + 1, v');
    }
  }

  lemma Base128Step(d: byte, y: Bytes, shifted: nat, acc: nat)
    requires d >= 128 && shifted < 5 && (shifted == 0 ==> d > 128)
    ensures ParseBase128([d] + y, shifted, acc) == ParseBase128(y, shifted + 1, acc * 128 + (d - 128))
  {
    assert ([d] + y)[1..] == y;
  }

  lemma {:induction false} HighGroupsRead(m: nat, y: Bytes)
    requires 0 < m < 0x1000_0000
    ensures |HighGroups(m)| <= 4
    ensures ParseBase128(HighGroups(m) + y, 0, 0) == ParseBase128(y, |HighGroups(m)|, m)
  {
    hide ParseBase128;
    HighGroupsCount(m);
    if m < 128 {
      Base128Step(m + 128, y, 0, 0);
    } else {
      var d: byte := m % 128 + 128;
      var high := HighGroups(m / 128);
      assert HighGroups(m) == high + [d];
      hide HighGroups;
      HighGroupsCount(m / 128);
      HighGroupsRead(m / 128, [d] + y);
      assert high + [d] + y == high + ([d] + y);
      Base128Step(d, y, |high|, m / 128);
      assert m / 128 * 128 + m % 128 == m;
    }
  }

  lemma HighGroupsCount(m: nat)
    ensures m < 0x80 ==> |HighGroups(m)| == 1
    ensures m < 0x4000 ==> |HighGroups(m)| <= 2
    ensures m < 0x20_0000 ==> |HighGroups(m)| <= 3
    ensures m < 0x1000_0000 ==> |HighGroups(m)| <= 4
    ensures m >= 0x80 ==> |HighGroups(m)| == |HighGroups(m / 128)| + 1
  {
  }

  /** A 31-bit number printed in base 128 is read back. */
  lemma Base128Reads(n: nat, x: Bytes)
    requires n < LENGTH_LIMIT
    ensures ParseBase128(EncodeBase128(n) + x, 0, 0) == Some((n, x))
  {
    hide ParseBase128, HighGroups;
    var d: byte := n % 128;
    if n < 128 {
      Base128Last(d, x, 0, 0);
    } else {
      HighGroupsRead(n / 128, [d] + x);
      assert HighGroups(n / 128) + [d] + x == HighGroups(n / 128) + ([d] + x);
      Base128Last(d, x, |HighGroups(n / 128)|, n / 128);
    }
  }

  lemma Base128Last(d: byte, x: Bytes, shifted: nat, acc: nat)
    requires d < 128 && shifted < 5 && acc * 128 + d < LENGTH_LIMIT
    ensures ParseBase128([d] + x, shifted, acc) == Some((acc * 128 + d, x))
  {
    assert ([d] + x)[1..] == x;
  }

  // ---------------------------------------------------------------- lengths

  /** k big-endian length octets, refusing leading zeros and lengths of 2^31 or more. */
  function ParseLong(b: Bytes, k: nat, acc: nat): (r: Option<(nat, Bytes)>)
    ensures r.Some? ==> IsSuffix(r.value.1, b) && |r.value.1| + k == |b|
    decreases k
  {
    if k == 0 then Some((acc, b))
    else if |b| == 0 || acc >= 0x80_0000 || acc * 256 + b[0] == 0 then None
    else ParseLong(b[1..], k - 1, acc * 256 + b[0])
  }

  function ParseLength(b: Bytes): (r: Option<(nat, Bytes)>)
    ensures r.Some? ==> |r.value.1| < |b| && IsSuffix(r.value.1, b)
  {
    if |b| == 0 || b[0] == 128 then None
    else if b[0] < 128 then Some((b[0], b[1..]))
    else match ParseLong(b[1..], b[0] - 128, 0)
      case None => None
      case Some((n, rest)) => if n < 128 then None else Some((n, rest))
  }

  lemma {:induction false} LongLocal(b: Bytes, k: nat, acc: nat, n: nat, rest: Bytes, x: Bytes)
    requires ParseLong(b, k, acc) == Some((n, rest))
    ensures ParseLong(Used(b, rest) + x, k, acc) == Some((n, x))
    decreases k
  {
    var p := Used(b, rest) + x;
    if k > 0 {
      var tail := b[1..];
      LongLocal(tail, k - 1, acc * 256 + b[0], n, rest, x);
      assert p[0] == b[0] && p[1..] == Used(tail, rest) + x;
    } else {
      assert p == x;
    }
  }

  lemma LengthLocal(b: Bytes, n: nat, rest: Bytes, x: Bytes)
    requires ParseLength(b) == Some((n, rest))
    ensures ParseLength(Used(b, rest) + x) == Some((n, x))
  {
    var p := Used(b, rest) + x;
    if b[0] < 128 {
      assert p[1..] == x;
    } else {
      LongLocal(b[1..], b[0] - 128, 0, n, rest, x);
      assert p[1..] == Used(b[1..], rest) + x;
    }
  }

  /** The base-256 digits of n, most significant first; none for zero. */
  function LengthOctets(n: nat): (r: Bytes) {
    if n == 0 then [] else LengthOctets(n / 256) + [n % 256]
  }

  function EncodeLength(n: nat): (r: Bytes) {
    if n < 128 then [n] else [(128 + |LengthOctets(n)|) % 256] + LengthOctets(n)
  }

  lemma LongStep(d: byte, x: Bytes, k: nat, acc: nat)
    requires acc < 0x80_0000 && acc * 256 + d > 0
    ensures ParseLong([d] + x, k + 1, acc) == ParseLong(x, k, acc * 256 + d)
  {
    assert ([d] + x)[1..] == x;
  }

  lemma {:induction false} LongReads(n: nat, k: nat, x: Bytes)
    requires 0 < n < LENGTH_LIMIT
    ensures ParseLong(LengthOctets(n) + x, |LengthOctets(n)| + k, 0) == ParseLong(x, k, n)
  {
    hide LengthOctets, ParseLong;
    var low: byte := n % 256;
    var high := LengthOctets(n / 256);
    var y := [low] + x;
    OctetsDef(n);
    LongStep(low, x, k, n / 256);
    assert high + [low] + x == high + y;
    if n < 256 {
      assert high == [] by { OctetsZero(); }
      assert high + y == y;
    } else {
      LongReads(n / 256, k + 1, y);
    }
  }

  lemma OctetsDef(n: nat)
    requires n > 0
    ensures LengthOctets(n) == LengthOctets(n / 256) + [n % 256]
  {
  }

  lemma OctetsZero()
    ensures LengthOctets(0) == []
  {
  }

  lemma {:induction false} LongTooLarge(n: nat, k: nat, x: Bytes)
    requires n >= LENGTH_LIMIT
    ensures ParseLong(LengthOctets(n) + x, |LengthOctets(n)| + k, 0) == None
  {
    hide LengthOctets;
    var low: byte := n % 256;
    var high := LengthOctets(n / 256);
    var y := [low] + x;
    OctetsDef(n);
    assert high + [low] + x == high + y;
    if n / 256 >= LENGTH_LIMIT {
      LongTooLarge(n / 256, k + 1, y);
    } else {
      LongReads(n / 256, k + 1, y);
    }
  }

  lemma {:induction false} OctetCount(n: nat)
    requires n < LENGTH_LIMIT
    ensures |LengthOctets(n)| <= 4
  {
    assert LengthOctets(n / 0x100_0000 / 256) == [];
    assert |LengthOctets(n / 0x1_0000 / 256)| <= 1;
    assert |LengthOctets(n / 256 / 256)| <= 2;
    assert |LengthOctets(n / 256)| <= 3;
  }

  lemma OctetsSnoc(acc: nat, d: byte)
    requires acc * 256 + d > 0
    ensures LengthOctets(acc * 256 + d) == LengthOctets(acc) + [d]
  {
    assert (acc * 256 + d) / 256 == acc && (acc * 256 + d) % 256 == d;
  }

  lemma {:induction false} LongCanonical(b: Bytes, k: nat, acc: nat, n: nat, rest: Bytes)
    requires ParseLong(b, k, acc) == Some((n, rest))
    ensures LengthOctets(acc) + b == LengthOctets(n) + rest
    ensures |LengthOctets(n)| == |LengthOctets(acc)| + k
    decreases k
  {
    hide LengthOctets;
    if k > 0 {
      var tail := b[1..];
      OctetsSnoc(acc, b[0]);
      LongCanonical(tail, k - 1, acc * 256 + b[0], n, rest);
      assert b == [b[0]] + tail;
      hide ParseLong;
      assert LengthOctets(acc) + ([b[0]] + tail) == LengthOctets(acc) + [b[0]] + tail;
    }
  }

  lemma LongForm(l: Bytes, k: nat, n: nat, x: Bytes)
    requires 0 < k < 128 && n >= 128 && ParseLong(l, k, 0) == Some((n, x))
    ensures ParseLength([128 + k] + l) == Some((n, x))
  {
    hide ParseLong;
    assert ([128 + k] + l)[1..] == l;
  }

  lemma EncodeLengthLong(n: nat, x: Bytes)
    requires n >= 128 && |LengthOctets(n)| < 128
    ensures EncodeLength(n) + x == [128 + |LengthOctets(n)|] + (LengthOctets(n) + x)
  {
    hide LengthOctets;
  }

  lemma LengthReads(n: nat, x: Bytes)
    requires n < LENGTH_LIMIT
    ensures ParseLength(EncodeLength(n) + x) == Some((n, x))
  {
    if n < 128 {
      assert (EncodeLength(n) + x)[1..] == x;
    } else {
      hide *;
      OctetCount(n);
      LongReads(n, 0, x);
      LongDone(x, n);
      OctetsDef(n);
      LongForm(LengthOctets(n) + x, |LengthOctets(n)|, n, x);
      EncodeLengthLong(n, x);
    }
  }

  lemma LongDone(x: Bytes, n: nat)
    ensures ParseLong(x, 0, n) == Some((n, x))
  {
  }

  lemma LengthCanonical(b: Bytes, n: nat, rest: Bytes)
    requires ParseLength(b) == Some((n, rest))
    ensures b == EncodeLength(n) + rest
  {
    assert b == [b[0]] + b[1..];
    if b[0] > 128 {
      LongCanonical(b[1..], b[0] - 128, 0, n, rest);
      assert b[1..] == LengthOctets(n) + rest;
      assert b == [b[0]] + LengthOctets(n) + rest;
    }
  }

  // ---------------------------------------------------------------- elements

  function ParseTag(b: Bytes): (r: Option<(nat, Bytes)>)
    requires |b| > 0
    ensures r.Some? ==> |r.value.1| < |b| && IsSuffix(r.value.1, b)
  {
    if b[0] % 32 != 31 then Some((b[0] % 32, b[1..]))
    else match ParseBase128(b[1..], 0, 0)
      case None => None
      case Some((t, rest)) => if t < 31 then None else Some((t, rest))
  }

  function ParseHeader(b: Bytes): (r: Option<(Header, Bytes)>)
    ensures r.Some? ==> |r.value.1| < |b| && IsSuffix(r.value.1, b)
  {
    if |b| == 0 then None
    else match ParseTag(b)
      case None => None
      case Some((tag, rest)) =>
        match ParseLength(rest)
        case None => None
        case Some((n, rest')) => Some((Header(b[0] / 64, b[0] / 32 % 2 == 1, tag, n), rest'))
  }

  lemma TagLocal(b: Bytes, tag: nat, rest: Bytes, x: Bytes)
    requires |b| > 0 && ParseTag(b) == Some((tag, rest))
    ensures ParseTag(Used(b, rest) + x) == Some((tag, x))
  {
    hide ParseBase128;
    var p := Used(b, rest) + x;
    if b[0] % 32 == 31 {
      Base128Local(b[1..], 0, 0, tag, rest, x);
      assert p[1..] == Used(b[1..], rest) + x;
    } else {
      assert p[1..] == x;
    }
  }

  lemma UsedTwice(b: Bytes, mid: Bytes, rest: Bytes, x: Bytes)
    requires IsSuffix(mid, b) && IsSuffix(rest, mid)
    ensures Used(b, rest) + x == Used(b, mid) + (Used(mid, rest) + x)
  {
    assert b == Used(b, mid) + (Used(mid, rest) + rest);
  }

  lemma HeaderLocal(b: Bytes, h: Header, rest: Bytes, x: Bytes)
    requires ParseHeader(b) == Some((h, rest))
    ensures ParseHeader(Used(b, rest) + x) == Some((h, x))
  {
    var mid := ParseTag(b).value.1;
    LengthLocal(mid, h.length, rest, x);
    TagLocal(b, h.tag, mid, Used(mid, rest) + x);
    UsedTwice(b, mid, rest, x);
  }

  /** One element from the front of b, and what follows it. */
  function ParseRaw(b: Bytes): (r: Option<(Raw, Bytes)>)
    ensures r.Some? ==> r.value.0.full + r.value.1 == b && |r.value.0.full| > |r.value.0.bytes|
  {
    match ParseHeader(b)
    case None => None
    case Some((h, rest)) =>
      if h.length > |rest| then None
      else
        var after := rest[h.length..];
        Some((Raw(h.cls, h.compound, h.tag, rest[..h.length], Used(b, after)), after))
  }

  lemma RawElim(b: Bytes, v: Raw, after: Bytes) returns (h: Header, rest: Bytes)
    requires ParseRaw(b) == Some((v, after))
    ensures ParseHeader(b) == Some((h, rest)) && h == Header(v.cls, v.compound, v.tag, |v.bytes|)
    ensures IsSuffix(rest, b) && rest == v.bytes + after && v.full == Used(b, rest) + v.bytes
  {
    hide ParseHeader;
    h, rest := ParseHeader(b).value.0, ParseHeader(b).value.1;
  }

  lemma RawIntro(p: Bytes, h: Header, body: Bytes, x: Bytes)
    requires ParseHeader(p + (body + x)) == Some((h, body + x)) && h.length == |body|
    ensures ParseRaw(p + body + x) == Some((Raw(h.cls, h.compound, h.tag, body, p + body), x))
  {
    hide ParseHeader;
    assert p + body + x == p + (body + x);
    assert (body + x)[|body|..] == x && (body + x)[..|body|] == body;
    assert Used(p + body + x, x) == p + body;
  }

  /** Reading an element looks at no byte beyond it. */
  lemma RawLocal(b: Bytes, v: Raw, after: Bytes, x: Bytes)
    requires ParseRaw(b) == Some((v, after))
    ensures ParseRaw(v.full + x) == Some((v, x))
  {
    hide ParseHeader, ParseRaw;
    var h, rest := RawElim(b, v, after);
    HeaderLocal(b, h, rest, v.bytes + x);
    RawIntro(Used(b, rest), h, v.bytes, x);
  }

  function Identifier(cls: nat, tag: nat, compound: bool): (r: byte)
    requires cls < 4 && tag < 31
  {
    cls * 64 + (if compound then 32 else 0) + tag
  }

  /** The element with a low tag number and the given contents. */
  function Encode(cls: nat, tag: nat, compound: bool, body: Bytes): (r: Bytes)
    requires cls < 4 && tag < 31
    ensures |r| > |body| + 1
  {
    [Identifier(cls, tag, compound)] + EncodeLength(|body|) + body
  }

  // ---------------------------------------------------------------- what goes on the wire

  /** Octets read as one number, the most significant first. */
  function BigEndian(b: Bytes): (n: nat) {
    if |b| == 0 then 0 else BigEndian(b[..|b| - 1]) * 256 + b[|b| - 1]
  }

  /** The length octets of section 10.1 of X.690: one below 128, else their count and the number. */
  predicate IsLength(l: Bytes, n: nat) {
    if n < 128 then l == [n]
    else |l| >= 2 && l[0] == 0x80 + |l| - 1 && l[1] != 0 && BigEndian(l[1..]) == n
  }

  lemma {:induction false} OctetsForm(n: nat)
    ensures BigEndian(LengthOctets(n)) == n && (n > 0 ==> |LengthOctets(n)| > 0 && LengthOctets(n)[0] != 0)
  {
    if n > 0 {
      OctetsForm(n / 256);
      var l := LengthOctets(n);
      assert l[..|l| - 1] == LengthOctets(n / 256);
    }
  }

  lemma LengthForm(n: nat)
    requires |LengthOctets(n)| < 128
    ensures IsLength(EncodeLength(n), n)
  {
    OctetsForm(n);
    hide LengthOctets, BigEndian;
    if n >= 128 { assert EncodeLength(n)[1..] == LengthOctets(n); }
  }

  /** An element is one identifier octet, its length octets, and its contents. */
  lemma EncodeForm(cls: nat, tag: nat, compound: bool, body: Bytes)
    requires cls < 4 && tag < 31 && |LengthOctets(|body|)| < 128
    ensures Encode(cls, tag, compound, body)
         == [cls * 64 + (if compound then 0x20 else 0) + tag] + EncodeLength(|body|) + body
    ensures IsLength(EncodeLength(|body|), |body|)
  {
    hide EncodeLength, IsLength;
    LengthForm(|body|);
  }

  lemma IdentifierFields(cls: nat, tag: nat, compound: bool)
    requires cls < 4 && tag < 31
    ensures var id := Identifier(cls, tag, compound);
            id / 64 == cls && (id / 32 % 2 == 1) == compound && id % 32 == tag
  {
  }

  lemma EncodeHeader(cls: nat, tag: nat, compound: bool, l: Bytes)
    requires cls < 4 && tag < 31
    ensures var b := [Identifier(cls, tag, compound)] + l;
            ParseHeader(b) == match ParseLength(l)
              case None => None
              case Some((n, rest)) => Some((Header(cls, compound, tag, n), rest))
  {
    hide ParseLength, Identifier;
    var b := [Identifier(cls, tag, compound)] + l;
    assert b[1..] == l;
    IdentifierFields(cls, tag, compound);
  }

  /** What is printed is read back when its length is below 2^31... */
  lemma EncodeReads(cls: nat, tag: nat, compound: bool, body: Bytes, x: Bytes)
    requires cls < 4 && tag < 31 && |body| < LENGTH_LIMIT
    ensures var e := Encode(cls, tag, compound, body);
            ParseRaw(e + x) == Some((Raw(cls, compound, tag, body, e), x))
  {
    hide ParseHeader, ParseRaw, ParseLength, EncodeLength, Identifier;
    var y := body + x;
    var id := [Identifier(cls, tag, compound)];
    LengthReads(|body|, y);
    EncodeHeader(cls, tag, compound, EncodeLength(|body|) + y);
    assert id + (EncodeLength(|body|) + y) == (id + EncodeLength(|body|)) + y;
    RawIntro(id + EncodeLength(|body|), Header(cls, compound, tag, |body|), body, x);
  }

  /** ... and is refused from 2^31 on (up to the 127 length octets the format allows). */
  lemma EncodeTooLarge(cls: nat, tag: nat, compound: bool, body: Bytes, x: Bytes)
    requires cls < 4 && tag < 31 && LENGTH_LIMIT <= |body| && |LengthOctets(|body|)| < 128
    ensures ParseRaw(Encode(cls, tag, compound, body) + x) == None
  {
    assert |body| >= 128;
    hide *;
    var y := body + x;
    var l := LengthOctets(|body|);
    OctetsDef(|body|);
    LongTooLarge(|body|, 0, y);
    LongFormRefused(l + y, |l|);
    EncodeLengthLong(|body|, y);
    EncodeHeader(cls, tag, compound, EncodeLength(|body|) + y);
    EncodeParts(cls, tag, compound, body, x);
    RawRefused([Identifier(cls, tag, compound)] + (EncodeLength(|body|) + y));
  }

  lemma EncodeParts(cls: nat, tag: nat, compound: bool, body: Bytes, x: Bytes)
    requires cls < 4 && tag < 31
    ensures Encode(cls, tag, compound, body) + x
         == [Identifier(cls, tag, compound)] + (EncodeLength(|body|) + (body + x))
  {
    hide Identifier, EncodeLength;
  }

  lemma LongFormRefused(l: Bytes, k: nat)
    requires 0 < k < 128 && ParseLong(l, k, 0) == None
    ensures ParseLength([128 + k] + l) == None
  {
    hide ParseLong;
    assert ([128 + k] + l)[1..] == l;
  }

  lemma RawRefused(b: Bytes)
    requires ParseHeader(b) == None
    ensures ParseRaw(b) == None
  {
  }

  /** The reader accepts no other spelling of an element with a low tag number. */
  lemma RawCanonical(b: Bytes, v: Raw, after: Bytes)
    requires ParseRaw(b) == Some((v, after)) && v.tag < 31
    ensures v.cls < 4 && v.full == Encode(v.cls, v.tag, v.compound, v.bytes)
  {
    hide ParseHeader, ParseRaw, ParseLength, EncodeLength, Identifier;
    var h, rest := RawElim(b, v, after);
    HeaderShape(b, h, rest);
    LengthCanonical(b[1..], h.length, rest);
    Rejoin(b[0], EncodeLength(h.length), rest, b);
  }

  lemma HeaderShape(b: Bytes, h: Header, rest: Bytes)
    requires ParseHeader(b) == Some((h, rest)) && h.tag < 31
    ensures h.cls < 4 && b[0] == Identifier(h.cls, h.tag, h.compound)
    ensures ParseLength(b[1..]) == Some((h.length, rest))
  {
    hide ParseLength, ParseBase128;
    assert ParseTag(b) == Some((h.tag, b[1..]));
  }

  lemma Rejoin(id: byte, l: Bytes, rest: Bytes, b: Bytes)
    requires |b| > 0 && b[0] == id && b[1..] == l + rest
    ensures Used(b, rest) == [id] + l
  {
    assert b == [id] + l + rest;
  }

  /** b is exactly one element. */
  predicate IsElement(b: Bytes) {
    ParseRaw(b).Some? && ParseRaw(b).value.1 == []
  }

  lemma ElementReads(e: Bytes, x: Bytes)
    requires IsElement(e)
    ensures ParseRaw(e).value.0.full == e
    ensures ParseRaw(e + x) == Some((ParseRaw(e).value.0, x))
  {
    var v := ParseRaw(e).value.0;
    assert v.full + [] == e;
    RawLocal(e, v, [], x);
  }

  // ---------------------------------------------------------------- splitting

  /** The elements at the front of b, up to the first one that cannot be read. */
  function Split(b: Bytes): (r: seq<Bytes>)
    decreases |b|
  {
    match ParseRaw(b)
    case None => []
    case Some((v, rest)) => [v.full] + Split(rest)
  }

  /** b is a concatenation of elements with nothing left over. */
  predicate Splits(b: Bytes) {
    Concat(Split(b)) == b
  }

  lemma SplitStep(b: Bytes, v: Raw, rest: Bytes)
    requires ParseRaw(b) == Some((v, rest))
    ensures Split(b) == [v.full] + Split(rest) && |rest| < |b|
  {
  }

  lemma SplitStop(b: Bytes)
    requires ParseRaw(b) == None
    ensures Split(b) == []
  {
  }

  method SplitDer(b: Bytes) returns (out: seq<Bytes>)
    ensures out == Split(b)
  {
    hide ParseRaw;
    out := [];
    var rest := b;
    while |rest| > 0
      invariant out + Split(rest) == Split(b)
      decreases |rest|
    {
      var parsed := ParseRaw(rest);
      if parsed.None? {
        SplitStop(rest);
        return;
      }
      SplitStep(rest, parsed.value.0, parsed.value.1);
      out := out + [parsed.value.0.full];
      rest := parsed.value.1;
    }
  }

  lemma {:induction false} SplitPieces(b: Bytes)
    ensures forall e :: e in Split(b) ==> IsElement(e)
    ensures |Concat(Split(b))| <= |b| && Concat(Split(b)) == b[..|Concat(Split(b))|]
    decreases |b|
  {
    hide ParseRaw;
    if ParseRaw(b).Some? {
      var (v, rest) := ParseRaw(b).value;
      RawLocal(b, v, rest, []);
      assert v.full + [] == v.full;
      SplitPieces(rest);
      SplitStep(b, v, rest);
      assert b == v.full + rest;
    }
  }

  /** Splitting undoes concatenation of elements, whatever follows them. */
  lemma {:induction false} SplitConcat(es: seq<Bytes>, x: Bytes)
    requires forall e :: e in es ==> IsElement(e)
    ensures Split(Concat(es) + x) == es + Split(x)
  {
    hide ParseRaw, Split;
    if |es| == 0 {
      assert Concat(es) + x == x && es + Split(x) == Split(x);
    } else {
      var tail := Concat(es[1..]) + x;
      SplitConcat(es[1..], x);
      ElementReads(es[0], tail);
      SplitStep(es[0] + tail, ParseRaw(es[0]).value.0, tail);
      assert Concat(es) + x == es[0] + tail;
      assert es == [es[0]] + es[1..];
      assert [es[0]] + (es[1..] + Split(x)) == es + Split(x);
    }
  }

  lemma SplitsConcat(es: seq<Bytes>)
    requires forall e :: e in es ==> IsElement(e)
    ensures Split(Concat(es)) == es && Splits(Concat(es))
  {
    SplitConcat(es, []);
    assert Concat(es) + [] == Concat(es);
    assert es + Split([]) == es;
  }

  /** A byte string splits without remainder exactly when it is made of elements. */
  lemma SplitsIff(b: Bytes)
    ensures Splits(b) <==> exists es: seq<Bytes> :: (forall e :: e in es ==> IsElement(e)) && Concat(es) == b
  {
    SplitPieces(b);
    if es: seq<Bytes> :| (forall e :: e in es ==> IsElement(e)) && Concat(es) == b {
      SplitsConcat(es);
    }
  }
}
