/**
 The supervisor of crypto child processes as a transition system: slots, children
 with their pipes, the warm standby channel and its warmer, retries, recycling and
 Close, under every interleaving. The clock, the operating system and the driver
 are nondeterministic: a child may crash, a call may time out or be cancelled, a
 spawn may fail and an answer may be anything, at any point the code allows it.
 */
module Supervisor {
  import opened Prelude

  type Pid = nat

  datatype Config = Config(size: int, standby: int, maxOps: int, keepAfterRevoked: bool)

  const DEFAULT_MAX_OPS := 1000

  function Size(c: Config): (n: nat) { if c.size < 1 then 1 else c.size }

  function Standby(c: Config): (n: nat) { if c.standby < 0 then 0 else c.standby }

  function MaxOps(c: Config): (n: int) { if c.maxOps == 0 then DEFAULT_MAX_OPS else c.maxOps }

  /** Which request a frame on a pipe belongs to: the call and its attempt number. */
  datatype Tag = Tag(call: nat, attempt: nat)

  datatype Answer = Answer(tag: Tag, body: int, revoked: bool)

  /** Where a child is held. Auxiliary: it records each hand-over as it happens. */
  datatype Owner = InSlot(slot: nat) | InStandby | InWarmer | Killed

  /** A child process: the requests not yet read by it, the one it is handling, the
      responses not yet read by the parent, and every response it ever wrote. */
  datatype Child = Child(owner: Owner, inbox: seq<Tag>, working: Option<Tag>,
                         outbox: seq<Answer>, answers: seq<Answer>, crashed: bool)

  datatype Outcome = Answered(pid: Pid, answer: Answer) | Undecodable | TimedOut | Cancelled | Crashed | Refused

  /** How far the call holding a slot has got. */
  datatype Phase = Fresh | Waiting | Got(answer: Answer) | Lost(why: Outcome) | Settled(outcome: Outcome)

  datatype Slot =
    | Free(proc: Option<Pid>, ops: nat)
    | Held(tag: Tag, phase: Phase, proc: Option<Pid>, ops: nat)
    | Drained

  datatype CallState = Trying | Busy | Done

  /** One call: the outcomes of its finished attempts, oldest first. */
  datatype Call = Call(history: seq<Outcome>, state: CallState)

  datatype Warmer = NotStarted | Idle | Filling | Holding(pid: Pid) | Stopped

  datatype Closer = Open | Closing | Closed

  /** The last field counts the Close calls that found the supervisor already closing. */
  datatype State = State(cfg: Config, children: seq<Child>, slots: seq<Slot>, calls: map<nat, Call>,
                         standby: seq<Pid>, warmer: Warmer, closer: Closer, lateCloses: nat)

  function NewChild(owner: Owner): (c: Child) { Child(owner, [], None, [], [], false) }

  function Init(cfg: Config): (s: State) {
    State(cfg, [NewChild(InSlot(0))],
          seq(Size(cfg), i => if i == 0 then Free(Some(0), 0) else Free(None, 0)),
          map[], [], NotStarted, Open, 0)
  }

  function ProcOf(sl: Slot): (p: Option<Pid>) {
    match sl case Free(p, _) => p case Held(_, _, p, _) => p case Drained => None
  }

  // ---------------------------------------------------------------- steps

  datatype Event =
    | NewCall(call: nat)
    | Refuse(call: nat)                         // closed, or cancelled before a slot was free
    | Acquire(call: nat, slot: nat)
    | TakeStandby(slot: nat)
    | Spawn(slot: nat)
    | SpawnFail(slot: nat)
    | Send(slot: nat)
    | Fail(slot: nat, why: Outcome)             // write error, read error, timeout or cancellation
    | ChildRead(pid: Pid)
    | ChildAnswer(pid: Pid, body: int, revoked: bool)
    | ChildCrash(pid: Pid)
    | Receive(slot: nat)
    | RetireLost(slot: nat)
    | Accept(slot: nat, decodes: bool, overMemory: bool)
    | Release(slot: nat)
    | WarmerStart | WarmerWake | WarmerSpawn | WarmerRest | WarmerPush | WarmerStop | WarmerAbort
    | CloseBegin
    | DrainSlot(slot: nat)
    | SweepStandby
    | CloseEnd
    | CloseAgain                                // a further Close finds the flag set and returns at once

  predicate HeldIn(s: State, i: nat) { i < |s.slots| && s.slots[i].Held? }

  predicate FreshSlot(s: State, i: nat) { HeldIn(s, i) && s.slots[i].phase == Fresh }

  predicate Running(s: State, p: Pid) {
    p < |s.children| && s.children[p].owner != Killed && !s.children[p].crashed
  }

  predicate WarmerQuiet(s: State) { s.warmer == NotStarted || s.warmer == Stopped }

  predicate AllDrained(s: State) { forall i :: 0 <= i < |s.slots| ==> s.slots[i] == Drained }

  predicate Enabled(s: State, e: Event) {
    match e
    case NewCall(c) => c !in s.calls
    case Refuse(c) => c in s.calls && s.calls[c].state == Trying
    case Acquire(c, i) => c in s.calls && s.calls[c].state == Trying && i < |s.slots| && s.slots[i].Free?
    case TakeStandby(i) => FreshSlot(s, i) && s.slots[i].proc == None && |s.standby| > 0
    case Spawn(i) => FreshSlot(s, i) && s.slots[i].proc == None
    case SpawnFail(i) => FreshSlot(s, i) && s.slots[i].proc == None
    case Send(i) => FreshSlot(s, i) && s.slots[i].proc.Some? && s.slots[i].proc.value < |s.children|
    case Fail(i, why) => HeldIn(s, i)
                         && (s.slots[i].phase == Waiting || (s.slots[i].phase == Fresh && s.slots[i].proc.Some?))
                         && (why == TimedOut || why == Cancelled || why == Crashed)
    case ChildRead(p) => Running(s, p) && s.children[p].working == None && |s.children[p].inbox| > 0
    case ChildAnswer(p, _, _) => Running(s, p) && s.children[p].working.Some?
    case ChildCrash(p) => Running(s, p)
    case Receive(i) => HeldIn(s, i) && s.slots[i].phase == Waiting && s.slots[i].proc.Some?
                       && s.slots[i].proc.value < |s.children| && |s.children[s.slots[i].proc.value].outbox| > 0
    case RetireLost(i) => HeldIn(s, i) && s.slots[i].phase.Lost?
    case Accept(i, _, _) => HeldIn(s, i) && s.slots[i].phase.Got?
    case Release(i) => HeldIn(s, i) && s.slots[i].phase.Settled? && s.slots[i].tag.call in s.calls
    case WarmerStart => s.warmer == NotStarted && s.closer == Open && Standby(s.cfg) > 0
    case WarmerWake => s.warmer == Idle
    case WarmerSpawn => s.warmer == Filling && |s.standby| < Standby(s.cfg)
    case WarmerRest => s.warmer == Filling
    case WarmerPush => s.warmer.Holding? && |s.standby| < Standby(s.cfg)
    case WarmerStop => (s.warmer == Idle || s.warmer == Filling) && s.closer != Open
    case WarmerAbort => s.warmer.Holding? && s.closer != Open
    case CloseBegin => s.closer == Open
    case DrainSlot(i) => s.closer == Closing && WarmerQuiet(s) && i < |s.slots| && s.slots[i].Free?
    case SweepStandby => s.closer == Closing && WarmerQuiet(s) && AllDrained(s) && |s.standby| > 0
    case CloseEnd => s.closer == Closing && WarmerQuiet(s) && AllDrained(s) && s.standby == []
    case CloseAgain => s.closer != Open
  }

  function Put(s: State, i: nat, sl: Slot): (r: State)
    requires i < |s.slots|
    ensures r.cfg == s.cfg
  {
    s.(slots := s.slots[i := sl])
  }

  function PutChild(s: State, p: Pid, c: Child): (r: State)
    ensures r.cfg == s.cfg
  {
    if p < |s.children| then s.(children := s.children[p := c]) else s
  }

  function Move(s: State, p: Pid, owner: Owner): (r: State)
    ensures r.cfg == s.cfg
  {
    if p < |s.children| then PutChild(s, p, s.children[p].(owner := owner)) else s
  }

  function Kill(s: State, p: Option<Pid>): (r: State)
    ensures r.cfg == s.cfg
  {
    match p case None => s case Some(pid) => Move(s, pid, Killed)
  }

  /** Whether the child that just gave this answer, its ops-th, is retired. */
  predicate Recycles(c: Config, ops: nat, a: Answer, overMemory: bool) {
    (a.revoked && !c.keepAfterRevoked) || (MaxOps(c) > 0 && ops >= MaxOps(c)) || (overMemory && ops % 16 == 0)
  }

  function Apply(s: State, e: Event): (r: State)
    requires Enabled(s, e)
  {
    match e
    case NewCall(c) => s.(calls := s.calls[c := Call([], Trying)])
    case Refuse(c) => s.(calls := s.calls[c := Call(s.calls[c].history + [Refused], Done)])
    case Acquire(c, i) =>
      var call := s.calls[c];
      Put(s, i, Held(Tag(c, |call.history|), Fresh, s.slots[i].proc, s.slots[i].ops))
        .(calls := s.calls[c := call.(state := Busy)])
    case TakeStandby(i) =>
      var p := s.standby[0];
      Move(Put(s, i, s.slots[i].(proc := Some(p), ops := 0)), p, InSlot(i)).(standby := s.standby[1..])
    case Spawn(i) =>
      Put(s, i, s.slots[i].(proc := Some(|s.children|), ops := 0)).(children := s.children + [NewChild(InSlot(i))])
    case SpawnFail(i) => Put(s, i, s.slots[i].(phase := Settled(Refused)))
    case Send(i) =>
      var p := s.slots[i].proc.value;
      var c := s.children[p];
      PutChild(Put(s, i, s.slots[i].(phase := Waiting)), p, c.(inbox := c.inbox + [s.slots[i].tag]))
    case Fail(i, why) => Put(s, i, s.slots[i].(phase := Lost(why)))
    case ChildRead(p) =>
      var c := s.children[p];
      PutChild(s, p, c.(inbox := c.inbox[1..], working := Some(c.inbox[0])))
    case ChildAnswer(p, body, revoked) =>
      var c := s.children[p];
      var a := Answer(c.working.value, body, revoked);
      PutChild(s, p, c.(working := None, outbox := c.outbox + [a], answers := c.answers + [a]))
    case ChildCrash(p) => PutChild(s, p, s.children[p].(crashed := true))
    case Receive(i) =>
      var p := s.slots[i].proc.value;
      var c := s.children[p];
      PutChild(Put(s, i, s.slots[i].(phase := Got(c.outbox[0]))), p, c.(outbox := c.outbox[1..]))
    case RetireLost(i) =>
      Kill(Put(s, i, Held(s.slots[i].tag, Settled(s.slots[i].phase.why), None, 0)), s.slots[i].proc)
    case Accept(i, decodes, overMemory) =>
      var sl, a := s.slots[i], s.slots[i].phase.answer;
      var out := if decodes && sl.proc.Some? then Answered(sl.proc.value, a) else Undecodable;
      if !decodes || Recycles(s.cfg, sl.ops + 1, a, overMemory)
      then Kill(Put(s, i, Held(sl.tag, Settled(out), None, 0)), sl.proc)
      else Put(s, i, Held(sl.tag, Settled(out), sl.proc, sl.ops + 1))
    case Release(i) =>
      var sl := s.slots[i];
      var h := s.calls[sl.tag.call].history + [sl.phase.outcome];
      var again := sl.phase.outcome == Crashed && |h| < 2;
      Put(s, i, Free(sl.proc, sl.ops)).(calls := s.calls[sl.tag.call := Call(h, if again then Trying else Done)])
    case WarmerStart => s.(warmer := Idle)
    case WarmerWake => s.(warmer := Filling)
    case WarmerSpawn => s.(warmer := Holding(|s.children|), children := s.children + [NewChild(InWarmer)])
    case WarmerRest => s.(warmer := Idle)
    case WarmerPush => Move(s, s.warmer.pid, InStandby).(standby := s.standby + [s.warmer.pid], warmer := Filling)
    case WarmerStop => s.(warmer := Stopped)
    case WarmerAbort => Kill(s, Some(s.warmer.pid)).(warmer := Stopped)
    case CloseBegin => s.(closer := Closing)
    case DrainSlot(i) => Kill(Put(s, i, Drained), s.slots[i].proc)
    case SweepStandby => Kill(s, Some(s.standby[0])).(standby := s.standby[1..])
    case CloseEnd => s.(closer := Closed)
    case CloseAgain => s.(lateCloses := s.lateCloses + 1)
  }

  /** The state after a run of events, if every one of them was enabled in turn. */
  function Run(s: State, es: seq<Event>): (r: Option<State>)
    decreases |es|
  {
    if |es| == 0 then Some(s)
    else if !Enabled(s, es[0]) then None
    else Run(Apply(s, es[0]), es[1..])
  }

  // ---------------------------------------------------------------- what holds between steps

  predicate Quiet(c: Child) { c.inbox == [] && c.working == None && c.outbox == [] }

  /** Answers after which the child may still be asked again. */
  predicate Unspent(cfg: Config, answers: seq<Answer>) {
    && (cfg.keepAfterRevoked || forall k :: 0 <= k < |answers| ==> !answers[k].revoked)
    && (MaxOps(cfg) > 0 ==> |answers| < MaxOps(cfg))
  }

  predicate Rested(cfg: Config, c: Child, ops: nat) {
    Quiet(c) && |c.answers| == ops && Unspent(cfg, c.answers)
  }

  /** Exactly one request is under way, at one of its three stages. */
  predicate InFlight(cfg: Config, c: Child, tag: Tag, ops: nat) {
    && |c.answers| >= ops && Unspent(cfg, c.answers[..ops])
    && ((c.inbox == [tag] && c.working == None && c.outbox == [] && |c.answers| == ops)
        || (c.inbox == [] && c.working == Some(tag) && c.outbox == [] && |c.answers| == ops)
        || (c.inbox == [] && c.working == None && |c.answers| == ops + 1
            && c.outbox == [c.answers[ops]] && c.answers[ops].tag == tag))
  }

  predicate Delivered(cfg: Config, c: Child, tag: Tag, ops: nat, a: Answer) {
    && Quiet(c) && |c.answers| == ops + 1 && Unspent(cfg, c.answers[..ops])
    && c.answers[ops] == a && a.tag == tag
  }

  /** Over a child's whole life: only its last answer may exhaust it. */
  predicate Budget(cfg: Config, answers: seq<Answer>) {
    |answers| == 0 || Unspent(cfg, answers[..|answers| - 1])
  }

  predicate Credited(s: State, tag: Tag, o: Outcome) {
    o.Answered? ==> o.answer.tag == tag && o.pid < |s.children| && o.answer in s.children[o.pid].answers
  }

  predicate PhaseOk(s: State, c: Child, tag: Tag, phase: Phase, ops: nat) {
    match phase
    case Fresh => Rested(s.cfg, c, ops)
    case Waiting => InFlight(s.cfg, c, tag, ops)
    case Got(a) => Delivered(s.cfg, c, tag, ops, a)
    case Lost(_) => InFlight(s.cfg, c, tag, ops) || Rested(s.cfg, c, ops)
    case Settled(_) => Rested(s.cfg, c, ops)
  }

  predicate HolderOk(s: State, tag: Tag, phase: Phase) {
    && tag.call in s.calls && s.calls[tag.call].state == Busy && |s.calls[tag.call].history| == tag.attempt
    && (phase.Lost? ==> phase.why == TimedOut || phase.why == Cancelled || phase.why == Crashed)
    && (phase.Settled? ==> Credited(s, tag, phase.outcome))
  }

  predicate SlotOk(s: State, i: nat)
    requires i < |s.slots|
  {
    var sl := s.slots[i];
    && (ProcOf(sl).Some? ==> ProcOf(sl).value < |s.children| && s.children[ProcOf(sl).value].owner == InSlot(i))
    && (sl.Free? && sl.proc.Some? ==> Rested(s.cfg, s.children[sl.proc.value], sl.ops))
    && (sl.Held? ==>
          && HolderOk(s, sl.tag, sl.phase)
          && (sl.proc.Some? ==> PhaseOk(s, s.children[sl.proc.value], sl.tag, sl.phase, sl.ops))
          && (sl.proc.None? ==> sl.phase.Fresh? || sl.phase.Settled?))
  }

  predicate SlotsOk(s: State) { forall i :: 0 <= i < |s.slots| ==> SlotOk(s, i) }

  /** A call is held by at most one slot. */
  predicate CallsApart(s: State) {
    forall i, j :: 0 <= i < j < |s.slots| && s.slots[i].Held? && s.slots[j].Held? ==>
      s.slots[i].tag.call != s.slots[j].tag.call
  }

  predicate ChildOk(s: State, p: Pid)
    requires p < |s.children|
  {
    && Budget(s.cfg, s.children[p].answers)
    && match s.children[p].owner
       case InSlot(i) => i < |s.slots| && ProcOf(s.slots[i]) == Some(p)
       case InStandby => p in s.standby
       case InWarmer => s.warmer == Holding(p)
       case Killed => true
  }

  predicate ChildrenOk(s: State) { forall p :: 0 <= p < |s.children| ==> ChildOk(s, p) }

  predicate Pristine(c: Child, owner: Owner) { Quiet(c) && c.answers == [] && c.owner == owner }

  predicate WarmOk(s: State) {
    && |s.standby| <= Standby(s.cfg)
    && (forall k :: 0 <= k < |s.standby| ==>
      s.standby[k] < |s.children| && Pristine(s.children[s.standby[k]], InStandby))
    && (forall k, l :: 0 <= k < l < |s.standby| ==> s.standby[k] != s.standby[l])
    && (s.warmer.Holding? ==> |s.standby| < Standby(s.cfg) && s.warmer.pid < |s.children|
                              && Pristine(s.children[s.warmer.pid], InWarmer))
  }

  /** A call makes at most two attempts, and only a crash is followed by another. */
  predicate CallOk(s: State, c: nat)
    requires c in s.calls
  {
    var h := s.calls[c].history;
    && |h| <= 2
    && (s.calls[c].state != Done ==> |h| < 2)
    && (s.calls[c].state == Done ==> |h| >= 1 && (|h| == 1 ==> h[0] != Crashed))
    && (forall k :: 0 <= k < |h| && (k + 1 < |h| || s.calls[c].state != Done) ==> h[k] == Crashed)
    && (forall k :: 0 <= k < |h| ==> Credited(s, Tag(c, k), h[k]))
  }

  predicate CallsOk(s: State) { forall c :: c in s.calls ==> CallOk(s, c) }

  predicate CloseOk(s: State) {
    && |s.slots| == Size(s.cfg)
    && ((exists i :: 0 <= i < |s.slots| && s.slots[i] == Drained) ==> s.closer != Open && WarmerQuiet(s))
    && (s.closer == Closed ==> WarmerQuiet(s) && AllDrained(s) && s.standby == [])
  }

  predicate Inv(s: State) {
    SlotsOk(s) && CallsApart(s) && ChildrenOk(s) && WarmOk(s) && CallsOk(s) && CloseOk(s)
  }
}
