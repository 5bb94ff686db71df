/**
 The length-prefixed frames that carry requests and responses over a child's pipes,
 and the child's read-handle-write loop.
 */
module Framing {
  import opened Prelude

  const MAX_FRAME := 0x400_0000  // 64 << 20

  datatype ReadResult = Frame(payload: Bytes, rest: Bytes) | Eof | TooLarge | Short

  /** A 32-bit length, most significant octet first. */
  function Prefix(n: nat): (r: Bytes)
    requires n < 0x1_0000_0000
    ensures |r| == 4
  {
    [n / 0x100_0000, n / 0x1_0000 % 0x100, n / 0x100 % 0x100, n % 0x100]
  }

  function FrameLength(b: Bytes): (n: nat)
    requires |b| >= 4
  {
    b[0] as int * 0x100_0000 + b[1] as int * 0x1_0000 + b[2] as int * 0x100 + b[3] as int
  }

  lemma PrefixReads(n: nat, x: Bytes)
    requires n < 0x1_0000_0000
    ensures FrameLength(Prefix(n) + x) == n
  {
    var a, b, c := n / 0x100_0000, n / 0x1_0000, n / 0x100;
    assert n == c * 0x100 + n % 0x100;
    assert c / 0x100 == b && c == b * 0x100 + c % 0x100;
    assert b / 0x100 == a && b == a * 0x100 + b % 0x100;
  }

  /** A payload small enough to be framed; a larger one is refused. */
  predicate Fits(p: Bytes) {
    |p| <= MAX_FRAME
  }

  /** The octets one frame puts on the pipe. */
  function EncodeFrame(payload: Bytes): (r: Bytes)
    requires Fits(payload)
  {
    Prefix(|payload|) + payload
  }

  /** One frame from the front of the stream. */
  function ReadFrame(b: Bytes): (r: ReadResult)
    ensures r.Frame? ==> |r.rest| + 4 <= |b|
  {
    if |b| < 4 then Eof
    else
      var n := FrameLength(b);
      if n > MAX_FRAME then TooLarge
      else if |b| - 4 < n then Short
      else Frame(b[4..4 + n], b[4 + n..])
  }

  predicate AllFit(ps: seq<Bytes>) {
    forall i :: 0 <= i < |ps| ==> Fits(ps[i])
  }

  /** The octets of a sequence of frames. */
  function Stream(ps: seq<Bytes>): (r: Bytes)
    requires AllFit(ps)
  {
    if |ps| == 0 then [] else EncodeFrame(ps[0]) + Stream(ps[1..])
  }

  /** Every frame the reader delivers before it stops, and why it stopped. */
  function ReadAll(b: Bytes): (r: (seq<Bytes>, ReadResult))
    ensures !r.1.Frame?
    decreases |b|
  {
    match ReadFrame(b)
    case Frame(p, rest) => var (ps, end) := ReadAll(rest); ([p] + ps, end)
    case other => ([], other)
  }

  lemma FrameReads(p: Bytes, x: Bytes)
    requires Fits(p)
    ensures ReadFrame(EncodeFrame(p) + x) == Frame(p, x)
  {
    hide Prefix, FrameLength;
    var b := Prefix(|p|) + p + x;
    PrefixReads(|p|, p + x);
    assert b == Prefix(|p|) + (p + x);
    assert b[4..4 + |p|] == p && b[4 + |p|..] == x;
  }

  /** Framing is lossless: reading what was written gives back exactly the frames, in order. */
  lemma {:induction false} StreamReads(ps: seq<Bytes>)
    requires AllFit(ps)
    ensures ReadAll(Stream(ps)) == (ps, Eof)
  {
    if |ps| > 0 {
      var rest := ps[1..];
      assert Stream(ps) == EncodeFrame(ps[0]) + Stream(rest);
      hide EncodeFrame, ReadFrame, ReadAll, Stream, Fits;
      StreamReads(rest);
      FrameReads(ps[0], Stream(rest));
      ReadAllCons(Stream(ps), ps[0], Stream(rest));
      assert ps == [ps[0]] + rest;
    }
  }

  lemma ReadAllCons(b: Bytes, p: Bytes, rest: Bytes)
    requires ReadFrame(b) == Frame(p, rest)
    ensures ReadAll(b) == ([p] + ReadAll(rest).0, ReadAll(rest).1)
  {
    hide ReadFrame;
  }

  /** A stream cut off anywhere delivers a prefix of the frames and then an error or the end:
      a torn frame is never delivered and never read as another one. */
  lemma {:induction false} TornStream(ps: seq<Bytes>, cut: nat)
    requires AllFit(ps) && cut <= |Stream(ps)|
    ensures ReadAll(Stream(ps)[..cut]).0 <= ps
    ensures cut < |Stream(ps)| ==> |ReadAll(Stream(ps)[..cut]).0| < |ps|
  {
    hide EncodeFrame, ReadFrame, ReadAll, Fits;
    var b := Stream(ps)[..cut];
    if |ps| == 0 {
      NothingToRead();
      ReadNothing(b);
    } else {
      var frame, rest := EncodeFrame(ps[0]), Stream(ps[1..]);
      assert Stream(ps) == frame + rest;
      if cut < |frame| {
        TornFrame(ps[0], cut);
        assert b == frame[..cut];
        ReadNothing(b);
      } else {
        assert b == frame + rest[..cut - |frame|];
        FrameReads(ps[0], rest[..cut - |frame|]);
        TornStream(ps[1..], cut - |frame|);
        ReadAllCons(b, ps[0], rest[..cut - |frame|]);
        assert ps == [ps[0]] + ps[1..];
      }
    }
  }

  lemma ReadNothing(b: Bytes)
    requires !ReadFrame(b).Frame?
    ensures ReadAll(b).0 == []
  {
    hide ReadFrame;
  }

  lemma TornFrame(p: Bytes, cut: nat)
    requires Fits(p) && cut < |EncodeFrame(p)|
    ensures !ReadFrame(EncodeFrame(p)[..cut]).Frame?
  {
    var b := EncodeFrame(p)[..cut];
    if cut >= 4 {
      hide Prefix, FrameLength;
      PrefixReads(|p|, p[..cut - 4]);
      assert b == Prefix(|p|) + p[..cut - 4];
    }
  }

  // ---------------------------------------------------------------- one direction of a pipe

  class Pipe {
    var data: Bytes

    constructor ()
      ensures data == []
    {
      data := [];
    }

    /** Two writes, header then payload; an oversized frame writes nothing. */
    method Write(payload: Bytes) returns (ok: bool)
      modifies this
      ensures ok == Fits(payload)
      ensures data == if ok then old(data) + EncodeFrame(payload) else old(data)
    {
      ok := |payload| <= MAX_FRAME;
      if ok {
        data := data + Prefix(|payload|);
        data := data + payload;
      }
    }

    method Read() returns (r: ReadResult)
      modifies this
      ensures r == ReadFrame(old(data))
      ensures data == if r.Frame? then r.rest else old(data)
    {
      r := ReadFrame(data);
      if r.Frame? { data := r.rest; }
    }
  }

  // ---------------------------------------------------------------- the child's loop

  /** What a child makes of a request: nothing when the frame is not one. */
  type Handler = Bytes -> Option<Bytes>

  predicate Answers(handle: Handler, req: Bytes) { handle(req).Some? && Fits(handle(req).value) }

  /** What the child has written when it stops reading: it stops at the end of its input, at a
      frame that cannot be read or is no request, or when an answer is too large. */
  function Served(b: Bytes, handle: Handler): (out: Bytes)
    decreases |b|
  {
    match ReadFrame(b)
    case Frame(req, rest) =>
      if Answers(handle, req) then EncodeFrame(handle(req).value) + Served(rest, handle) else []
    case _ => []
  }

  /** One request is read, handled and answered before the next one is read. */
  method Serve(input: Pipe, output: Pipe, handle: Handler)
    requires input != output
    modifies input, output
    ensures output.data == old(output.data) + Served(old(input.data), handle)
  {
    hide ReadFrame, EncodeFrame, Served, Fits;
    var going := true;
    ghost var goal := output.data + Served(input.data, handle);
    while going
      invariant going ==> output.data + Served(input.data, handle) == goal
      invariant !going ==> output.data == goal
      decreases going, |input.data|
    {
      ghost var before, pending := output.data, input.data;
      ServedStep(pending, handle);
      var req := input.Read();
      going := false;
      if req.Frame? {
        var answer := handle(req.payload);
        if answer.Some? {
          going := output.Write(answer.value);
          if going {
            Reassociate(before, EncodeFrame(answer.value), Served(input.data, handle));
          }
        }
      }
    }
  }

  lemma ServedStep(b: Bytes, handle: Handler)
    ensures var r := ReadFrame(b);
      if r.Frame? && Answers(handle, r.payload)
      then Served(b, handle) == EncodeFrame(handle(r.payload).value) + Served(r.rest, handle)
      else Served(b, handle) == []
  {
    hide ReadFrame, EncodeFrame;
  }

  lemma Reassociate(a: Bytes, b: Bytes, c: Bytes)
    ensures a + (b + c) == a + b + c
  {
  }

  predicate AllAnswered(ps: seq<Bytes>, handle: Handler) {
    forall i :: 0 <= i < |ps| ==> Answers(handle, ps[i])
  }

  /** The answers to requests that all have one. */
  function Handled(ps: seq<Bytes>, handle: Handler): (r: seq<Bytes>)
    requires AllAnswered(ps, handle)
    ensures |r| == |ps| && AllFit(r) && forall i :: 0 <= i < |ps| ==> r[i] == handle(ps[i]).value
  {
    if |ps| == 0 then [] else [handle(ps[0]).value] + Handled(ps[1..], handle)
  }

  /** Requests and responses pair up one to one, in order, up to the first request the child
      cannot answer; after that one nothing is written. */
  lemma {:induction false} ServePairs(ps: seq<Bytes>, handle: Handler, bad: seq<Bytes>)
    requires AllFit(ps) && AllAnswered(ps, handle) && AllFit(bad) && (|bad| > 0 ==> !Answers(handle, bad[0]))
    ensures Served(Stream(ps + bad), handle) == Stream(Handled(ps, handle))
  {
    hide EncodeFrame, ReadFrame, Answers, Fits;
    if |ps| > 0 {
      assert (ps + bad)[1..] == ps[1..] + bad;
      ServePairs(ps[1..], handle, bad);
      FrameReads(ps[0], Stream(ps[1..] + bad));
      ServedStep(Stream(ps + bad), handle);
      assert Handled(ps, handle)[1..] == Handled(ps[1..], handle);
    } else {
      assert ps + bad == bad;
      if |bad| > 0 { FrameReads(bad[0], Stream(bad[1..])); } else { NothingToRead(); }
      ServedStep(Stream(bad), handle);
    }
  }

  lemma NothingToRead()
    ensures !ReadFrame([]).Frame?
  {
  }
}
