/** The frame format in octets, and exactly what a reader takes for a frame. */
module FramingRules {
  import opened Prelude
  import opened Framing

  /** The length the first four octets announce. */
  function Announced(b: Bytes): (n: int)
    requires |b| >= 4
  {
    ((b[0] as int * 256 + b[1]) * 256 + b[2]) * 256 + b[3]
  }

  /** Four octets of length, most significant first, then the payload. */
  lemma FrameOctets(p: Bytes)
    requires |p| <= 67108864
    ensures Fits(p) && |EncodeFrame(p)| == 4 + |p| && EncodeFrame(p)[4..] == p
    ensures Announced(EncodeFrame(p)) == |p|
  {
    var n := |p|;
    var a, b, c := n / 0x100_0000, n / 0x1_0000, n / 0x100;
    assert n == c * 0x100 + n % 0x100;
    assert c / 0x100 == b && c == b * 0x100 + c % 0x100;
    assert b / 0x100 == a && b == a * 0x100 + b % 0x100;
  }

  /** Sixty-four mebibytes are the most a frame may hold. */
  lemma LargestFrame(p: Bytes)
    ensures Fits(p) <==> |p| <= 64 * 1024 * 1024
  {
  }

  /** Two frames as they stand on a pipe: three octets, then 258. */
  lemma FrameExample(p: Bytes)
    requires |p| == 258
    ensures AllFit([[7, 8, 9], p]) && Stream([[7, 8, 9], p]) == [0, 0, 0, 3, 7, 8, 9] + ([0, 0, 1, 2] + p)
  {
    assert Prefix(3) == [0, 0, 0, 3] && Prefix(258) == [0, 0, 1, 2];
    assert EncodeFrame([7, 8, 9]) == [0, 0, 0, 3, 7, 8, 9];
    assert EncodeFrame(p) == [0, 0, 1, 2] + p;
    assert Stream([p]) == EncodeFrame(p) + Stream([]);
    assert [[7, 8, 9], p][1..] == [p] && [p][1..] == [];
  }

  lemma PrefixOfLength(b: Bytes)
    requires |b| >= 4
    ensures FrameLength(b) < 0x1_0000_0000 && Prefix(FrameLength(b)) == b[..4]
  {
    var n := FrameLength(b);
    assert n / 0x100 == b[0] as int * 0x1_0000 + b[1] as int * 0x100 + b[2];
    assert n / 0x1_0000 == b[0] as int * 0x100 + b[1];
  }

  /** Reading delivers a payload if and only if the stream begins with that payload's frame: there
      is no other way to spell one. */
  lemma ReadsExactly(b: Bytes, p: Bytes, rest: Bytes)
    ensures ReadFrame(b) == Frame(p, rest) <==> |p| <= 67108864 && Fits(p) && b == EncodeFrame(p) + rest
  {
    hide Prefix, FrameLength;
    if ReadFrame(b) == Frame(p, rest) {
      PrefixOfLength(b);
      var n := FrameLength(b);
      assert b == b[..4] + b[4..4 + n] + b[4 + n..];
    } else if |p| <= 67108864 && b == EncodeFrame(p) + rest {
      FrameReads(p, rest);
    }
  }

  /** Why there is no frame: fewer than four octets are the end, a length beyond the limit is
      refused whatever follows, and anything else is a frame cut short. */
  lemma RefusesExactly(b: Bytes)
    ensures ReadFrame(b) == Eof <==> |b| < 4
    ensures ReadFrame(b) == TooLarge <==> |b| >= 4 && Announced(b) > 67108864
    ensures ReadFrame(b) == Short <==>
      |b| >= 4 && |b| - 4 < Announced(b) <= 67108864
  {
  }
}
