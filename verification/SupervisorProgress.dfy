/**
 Nobody in the supervisor waits for nothing: whoever holds a slot, warms a child or
 closes the whole always has a step to take, or waits for a child that does.
 */
module SupervisorProgress {
  import opened Prelude
  import opened Supervisor
  import opened SupervisorSafety

  // ---------------------------------------------------------------- a call in its slot

  /** The child is alive, and the next step of its request is its own or the caller's. */
  predicate ChildMoves(s: State, i: nat, p: Pid) {
    || Enabled(s, Receive(i)) || Enabled(s, ChildRead(p)) || Enabled(s, ChildAnswer(p, 0, false))
    || (p < |s.children| && (s.children[p].crashed || s.children[p].owner == Killed))
  }

  /** A call that holds a slot can always go on: start or take a child, send, wait for a child
      that is at work or lost, take an answer in, retire what is lost, give the slot back. */
  lemma SlotMovesOn(cfg: Config, s: State, i: nat)
    requires Reachable(cfg, s) && HeldIn(s, i)
    ensures var sl := s.slots[i];
      match sl.phase
      case Fresh =>
        if sl.proc.Some? then Enabled(s, Send(i))
        else Enabled(s, Spawn(i)) && Enabled(s, SpawnFail(i)) && (|s.standby| > 0 <==> Enabled(s, TakeStandby(i)))
      case Waiting => sl.proc.Some? && Enabled(s, Fail(i, TimedOut)) && ChildMoves(s, i, sl.proc.value)
      case Got(_) => Enabled(s, Accept(i, true, false))
      case Lost(_) => Enabled(s, RetireLost(i))
      case Settled(_) => Enabled(s, Release(i))
  {
    hide Reachable;
    ReachableInv(cfg, s);
    SlotElim(s, i);
    hide Inv, ChildOk, Unspent, Delivered, Rested, CallOk, InFlight, ChildMoves;
    if s.slots[i].phase == Waiting { WaitsForSomething(s, i); }
  }

  lemma WaitsForSomething(s: State, i: nat)
    requires HeldIn(s, i) && SlotOk(s, i) && s.slots[i].phase == Waiting
    ensures s.slots[i].proc.Some? && ChildMoves(s, i, s.slots[i].proc.value)
  {
    hide Unspent;
  }

  /** A call waiting for a slot can take any that is free, and can always be refused. */
  lemma CallMovesOn(s: State, c: nat)
    requires c in s.calls && s.calls[c].state == Trying
    ensures Enabled(s, Refuse(c))
    ensures forall i: nat :: Enabled(s, Acquire(c, i)) <==> i < |s.slots| && s.slots[i].Free?
  {
  }

  // ---------------------------------------------------------------- nobody is forgotten

  predicate HoldsSlot(s: State, c: nat, i: nat) { HeldIn(s, i) && s.slots[i].tag.call == c }

  /** A busy call holds a slot. */
  predicate BusyHeld(s: State) {
    forall c <- s.calls :: s.calls[c].state == Busy ==> exists i :: 0 <= i < |s.slots| && HoldsSlot(s, c, i)
  }

  /** What a step leaves of a slot: the call stays in it until it is released. */
  lemma SlotKept(s: State, e: Event, i: nat)
    requires Enabled(s, e) && HeldIn(s, i) && e != Release(i)
    ensures HeldIn(Apply(s, e), i) && Apply(s, e).slots[i].tag == s.slots[i].tag
  {
    if InsideSlot(e) { HeldKept(s, e, i); } else { OtherKept(s, e, i); }
    hide Apply;
  }

  predicate InsideSlot(e: Event) {
    || e.TakeStandby? || e.Spawn? || e.SpawnFail? || e.Send? || e.Fail? || e.Receive? || e.RetireLost? || e.Accept?
  }

  lemma HeldKept(s: State, e: Event, i: nat)
    requires Enabled(s, e) && HeldIn(s, i) && InsideSlot(e)
    ensures HeldIn(Apply(s, e), i) && Apply(s, e).slots[i].tag == s.slots[i].tag
  {
  }

  lemma OtherKept(s: State, e: Event, i: nat)
    requires Enabled(s, e) && HeldIn(s, i) && e != Release(i) && !InsideSlot(e)
    ensures HeldIn(Apply(s, e), i) && Apply(s, e).slots[i].tag == s.slots[i].tag
  {
  }

  lemma NewlyBusy(s: State, e: Event, c: nat)
    requires Enabled(s, e) && c in Apply(s, e).calls && Apply(s, e).calls[c].state == Busy
    requires !(c in s.calls && s.calls[c].state == Busy)
    ensures e.Acquire? && HoldsSlot(Apply(s, e), c, e.slot)
  {
  }

  lemma ReleasedEnds(s: State, i: nat)
    requires Enabled(s, Release(i))
    ensures var t, c := Apply(s, Release(i)), s.slots[i].tag.call; c in t.calls && t.calls[c].state != Busy
  {
  }

  lemma StepBusyHeld(s: State, e: Event)
    requires BusyHeld(s) && Enabled(s, e)
    ensures BusyHeld(Apply(s, e))
  {
    hide Apply, Enabled;
    var t := Apply(s, e);
    forall c | c in t.calls && t.calls[c].state == Busy ensures exists i :: 0 <= i < |t.slots| && HoldsSlot(t, c, i) {
      if c in s.calls && s.calls[c].state == Busy {
        var i :| 0 <= i < |s.slots| && HoldsSlot(s, c, i);
        if e == Release(i) { ReleasedEnds(s, i); } else { SlotKept(s, e, i); }
        assert HoldsSlot(t, c, i);
      } else {
        NewlyBusy(s, e, c);
      }
    }
  }

  lemma {:induction false} RunBusyHeld(s: State, es: seq<Event>)
    requires BusyHeld(s) && Run(s, es).Some?
    ensures BusyHeld(Run(s, es).value)
    decreases |es|
  {
    hide Apply, Enabled, BusyHeld;
    if |es| > 0 {
      StepBusyHeld(s, es[0]);
      RunBusyHeld(Apply(s, es[0]), es[1..]);
    }
  }

  /** In every run a call that has begun and not ended waits for a slot, or holds exactly one. */
  lemma NobodyForgotten(cfg: Config, s: State, c: nat)
    requires Reachable(cfg, s) && c in s.calls && s.calls[c].state == Busy
    ensures exists i :: 0 <= i < |s.slots| && HoldsSlot(s, c, i)
    ensures forall i, j :: 0 <= i < |s.slots| && 0 <= j < |s.slots| && HoldsSlot(s, c, i) && HoldsSlot(s, c, j) ==>
      i == j
  {
    var es :| Run(Init(cfg), es) == Some(s);
    RunBusyHeld(Init(cfg), es);
    ReachableInv(cfg, s);
    hide Reachable, Run, Init, SlotsOk, ChildrenOk, WarmOk, CallsOk, CloseOk;
  }

  // ---------------------------------------------------------------- a call can always be ended

  /** The steps that end a call without an answer, from wherever it stands in its slot. */
  function Giving(s: State, i: nat): (es: seq<Event>)
    requires HeldIn(s, i)
  {
    match s.slots[i].phase
    case Fresh =>
      if s.slots[i].proc.Some? then [Fail(i, TimedOut), RetireLost(i), Release(i)] else [SpawnFail(i), Release(i)]
    case Waiting => [Fail(i, TimedOut), RetireLost(i), Release(i)]
    case Got(_) => [Accept(i, true, false), Release(i)]
    case Lost(_) => [RetireLost(i), Release(i)]
    case Settled(_) => [Release(i)]
  }

  /** Whatever the children do, a call that holds a slot gives it back within three steps of its own. */
  lemma SlotComesBack(cfg: Config, s: State, i: nat)
    requires Reachable(cfg, s) && HeldIn(s, i)
    ensures |Giving(s, i)| <= 3 && Run(s, Giving(s, i)).Some?
    ensures var t := Run(s, Giving(s, i)).value; i < |t.slots| && t.slots[i].Free?
  {
    hide Reachable;
    ReachableInv(cfg, s);
    SlotElim(s, i);
    hide Inv, ChildOk, InFlight, Delivered, Rested, Apply, Run;
    match s.slots[i].phase
    case Fresh =>
      if s.slots[i].proc.Some? { GivesUp(s, i); } else { GetsNone(s, i); }
    case Waiting => GivesUp(s, i);
    case Got(_) => TakesIn(s, i);
    case Lost(_) => Retires(s, i);
    case Settled(_) => Once(s, Release(i));
  }

  lemma GivesUp(s: State, i: nat)
    requires Enabled(s, Fail(i, TimedOut)) && s.slots[i].tag.call in s.calls
    ensures var r := Run(s, [Fail(i, TimedOut), RetireLost(i), Release(i)]);
      r.Some? && i < |r.value.slots| && r.value.slots[i].Free?
  {
    var a := Apply(s, Fail(i, TimedOut));
    assert Enabled(a, RetireLost(i));
    assert Enabled(Apply(a, RetireLost(i)), Release(i));
    Thrice(s, Fail(i, TimedOut), RetireLost(i), Release(i));
  }

  lemma GetsNone(s: State, i: nat)
    requires Enabled(s, SpawnFail(i)) && s.slots[i].tag.call in s.calls
    ensures var r := Run(s, [SpawnFail(i), Release(i)]); r.Some? && i < |r.value.slots| && r.value.slots[i].Free?
  {
    Twice(s, SpawnFail(i), Release(i));
  }

  lemma TakesIn(s: State, i: nat)
    requires Enabled(s, Accept(i, true, false)) && s.slots[i].tag.call in s.calls
    ensures var r := Run(s, [Accept(i, true, false), Release(i)]);
      r.Some? && i < |r.value.slots| && r.value.slots[i].Free?
  {
    Twice(s, Accept(i, true, false), Release(i));
  }

  lemma Retires(s: State, i: nat)
    requires Enabled(s, RetireLost(i)) && s.slots[i].tag.call in s.calls
    ensures var r := Run(s, [RetireLost(i), Release(i)]); r.Some? && i < |r.value.slots| && r.value.slots[i].Free?
  {
    Twice(s, RetireLost(i), Release(i));
  }

  lemma Once(s: State, a: Event)
    requires Enabled(s, a)
    ensures Run(s, [a]) == Some(Apply(s, a))
  {
    hide Apply, Enabled;
    assert [a][1..] == [];
    assert Run(Apply(s, a), []) == Some(Apply(s, a));
  }

  lemma Twice(s: State, a: Event, b: Event)
    requires Enabled(s, a) && Enabled(Apply(s, a), b)
    ensures Run(s, [a, b]) == Some(Apply(Apply(s, a), b))
  {
    hide Apply, Enabled;
    assert [a, b][1..] == [b];
    Once(Apply(s, a), b);
  }

  lemma Thrice(s: State, a: Event, b: Event, c: Event)
    requires Enabled(s, a) && Enabled(Apply(s, a), b) && Enabled(Apply(Apply(s, a), b), c)
    ensures Run(s, [a, b, c]) == Some(Apply(Apply(Apply(s, a), b), c))
  {
    hide Apply, Enabled;
    assert [a, b, c][1..] == [b, c];
    Twice(Apply(s, a), b, c);
  }

  // ---------------------------------------------------------------- warming and closing

  /** The warmer starts while the supervisor is open and wants standby children, wakes, spawns
      while there is room, always has room for the child it holds, and stops once it closes. */
  lemma WarmerMovesOn(cfg: Config, s: State)
    requires Reachable(cfg, s)
    ensures s.warmer == NotStarted && s.closer == Open && s.cfg.standby > 0 ==> Enabled(s, WarmerStart)
    ensures s.warmer == Idle ==> Enabled(s, WarmerWake)
    ensures s.warmer == Filling ==> Enabled(s, WarmerRest) && (|s.standby| < s.cfg.standby ==> Enabled(s, WarmerSpawn))
    ensures s.warmer.Holding? ==> Enabled(s, WarmerPush) && (s.closer != Open ==> Enabled(s, WarmerAbort))
    ensures (s.warmer == Idle || s.warmer == Filling) && s.closer != Open ==> Enabled(s, WarmerStop)
  {
    hide Reachable;
    ReachableInv(cfg, s);
    hide SlotsOk, ChildrenOk, CallsOk, CloseOk;
  }

  lemma StandbyBounded(s: State)
    requires Inv(s)
    ensures |s.standby| <= Standby(s.cfg) && (s.warmer.Holding? ==> |s.standby| < Standby(s.cfg))
  {
    hide SlotsOk, ChildrenOk, CallsOk, CloseOk, CallsApart;
  }

  /** A Close under way always has a step to take, or waits for the warmer or for a call that has. */
  lemma CloseMovesOn(cfg: Config, s: State)
    requires Reachable(cfg, s) && s.closer == Closing
    ensures || Enabled(s, WarmerStop) || Enabled(s, WarmerAbort) || Enabled(s, SweepStandby) || Enabled(s, CloseEnd)
            || exists i :: 0 <= i < |s.slots| && (Enabled(s, DrainSlot(i)) || HeldIn(s, i))
  {
    hide Reachable, Inv;
    ReachableInv(cfg, s);
    StandbyBounded(s);
    if WarmerQuiet(s) && !AllDrained(s) {
      var i :| 0 <= i < |s.slots| && s.slots[i] != Drained;
      assert Enabled(s, DrainSlot(i)) || HeldIn(s, i);
    }
  }
}
