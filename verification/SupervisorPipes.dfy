/**
 The supervisor's pipes as bytes: the requests and answers its model keeps in lists
 travel as frames, and reading one frame off the bytes takes exactly the first of the list.
 */
module SupervisorPipes {
  import opened Prelude
  import opened Framing
  import opened Supervisor
  import opened SupervisorSafety

  /** How messages are spelled in a frame; none is too large for one. */
  ghost predicate Spelling<T(!new)>(encode: T -> Bytes) { forall x: T :: Fits(encode(x)) }

  function Payloads<T>(xs: seq<T>, encode: T -> Bytes): (r: seq<Bytes>)
    ensures |r| == |xs| && forall i :: 0 <= i < |xs| ==> r[i] == encode(xs[i])
  {
    seq(|xs|, i requires 0 <= i < |xs| => encode(xs[i]))
  }

  /** The bytes of a pipe that holds these messages. */
  ghost function Wire<T(!new)>(xs: seq<T>, encode: T -> Bytes): (r: Bytes)
    requires Spelling(encode)
  {
    Stream(Payloads(xs, encode))
  }

  lemma {:induction false} StreamSnoc(ps: seq<Bytes>, p: Bytes)
    requires AllFit(ps) && Fits(p)
    ensures AllFit(ps + [p]) && Stream(ps + [p]) == Stream(ps) + EncodeFrame(p)
  {
    hide EncodeFrame, Fits;
    if |ps| == 0 {
      assert ps + [p] == [p] && [p][1..] == [];
    } else {
      assert (ps + [p])[1..] == ps[1..] + [p];
      StreamSnoc(ps[1..], p);
    }
  }

  /** Writing a message appends its frame. */
  lemma WriteAppends<T(!new)>(xs: seq<T>, x: T, encode: T -> Bytes)
    requires Spelling(encode)
    ensures Wire(xs + [x], encode) == Wire(xs, encode) + EncodeFrame(encode(x))
  {
    hide EncodeFrame, Stream;
    StreamSnoc(Payloads(xs, encode), encode(x));
    assert Payloads(xs + [x], encode) == Payloads(xs, encode) + [encode(x)];
  }

  /** Reading a frame takes the first message and leaves the rest. */
  lemma ReadTakesFirst<T(!new)>(xs: seq<T>, encode: T -> Bytes)
    requires Spelling(encode) && |xs| > 0
    ensures ReadFrame(Wire(xs, encode)) == Frame(encode(xs[0]), Wire(xs[1..], encode))
  {
    hide EncodeFrame, ReadFrame;
    assert Payloads(xs, encode)[1..] == Payloads(xs[1..], encode);
    FrameReads(encode(xs[0]), Wire(xs[1..], encode));
  }

  /** In every run, the bytes on the pipe a caller is about to read are one frame, the answer to
      its own request, with nothing behind it. */
  lemma NextFrameIsOurs(cfg: Config, s: State, i: nat, encode: Answer -> Bytes)
    requires Reachable(cfg, s) && Enabled(s, Receive(i)) && Spelling(encode)
    ensures var out := s.children[s.slots[i].proc.value].outbox;
      out[0].tag == s.slots[i].tag && ReadFrame(Wire(out, encode)) == Frame(encode(out[0]), [])
  {
    hide Reachable, ReadFrame, Wire;
    ReachableInv(cfg, s);
    SlotElim(s, i);
    var out := s.children[s.slots[i].proc.value].outbox;
    assert |out| == 1 && out[0].tag == s.slots[i].tag;
    ReadTakesFirst(out, encode);
    assert out[1..] == [];
    EmptyWire(encode);
  }

  /** ... and those a child is about to read are one frame, the request of the slot it is in. */
  lemma NextRequestIsCurrent(cfg: Config, s: State, p: Pid, encode: Tag -> Bytes)
    requires Reachable(cfg, s) && Enabled(s, ChildRead(p)) && Spelling(encode)
    ensures var c := s.children[p];
      && c.owner.InSlot? && HeldIn(s, c.owner.slot) && c.inbox[0] == s.slots[c.owner.slot].tag
      && ReadFrame(Wire(c.inbox, encode)) == Frame(encode(c.inbox[0]), [])
  {
    hide Reachable, ReadFrame, Wire;
    ReachableInv(cfg, s);
    ChildElim(s, p);
    var c := s.children[p];
    InboxOne(s, p);
    ReadTakesFirst(c.inbox, encode);
    assert c.inbox[1..] == [];
    EmptyWire(encode);
  }

  lemma InboxOne(s: State, p: Pid)
    requires Inv(s) && p < |s.children| && s.children[p].owner != Killed && |s.children[p].inbox| > 0
    ensures var c := s.children[p];
      c.owner.InSlot? && HeldIn(s, c.owner.slot) && c.inbox == [s.slots[c.owner.slot].tag]
  {
    ChildElim(s, p);
    var c := s.children[p];
    if c.owner.InSlot? { SlotElim(s, c.owner.slot); }
  }

  lemma EmptyWire<T(!new)>(encode: T -> Bytes)
    requires Spelling(encode)
    ensures Wire([], encode) == []
  {
  }
}
