/** Every step of the supervisor keeps its invariant, and what that means for whole runs. */
module SupervisorSafety {
  import opened Prelude
  import opened Supervisor

  /** Nothing a child ever answered is forgotten. */
  predicate Grows(s: State, t: State) {
    |s.children| <= |t.children| &&
    forall p :: 0 <= p < |s.children| ==> s.children[p].answers <= t.children[p].answers
  }

  lemma CreditedGrows(s: State, t: State, tag: Tag, o: Outcome)
    requires Grows(s, t) && Credited(s, tag, o)
    ensures Credited(t, tag, o)
  {
    if o.Answered? {
      assert s.children[o.pid].answers <= t.children[o.pid].answers;
    }
  }

  lemma SlotFrame(s: State, t: State, j: nat)
    requires j < |s.slots| && |t.slots| == |s.slots| && t.cfg == s.cfg && SlotOk(s, j) && Grows(s, t)
    requires t.slots[j] == s.slots[j]
    requires ProcOf(s.slots[j]).Some? ==> t.children[ProcOf(s.slots[j]).value] == s.children[ProcOf(s.slots[j]).value]
    requires s.slots[j].Held? ==>
      s.slots[j].tag.call in t.calls && t.calls[s.slots[j].tag.call] == s.calls[s.slots[j].tag.call]
    ensures SlotOk(t, j)
  {
    hide Rested, InFlight, Delivered, Credited;
    var sl := s.slots[j];
    if sl.Held? && sl.phase.Settled? { CreditedGrows(s, t, sl.tag, sl.phase.outcome); }
  }

  lemma ChildFrame(s: State, t: State, q: Pid)
    requires q < |s.children| && q < |t.children| && t.cfg == s.cfg && ChildOk(s, q)
    requires t.children[q] == s.children[q]
    requires s.children[q].owner.InSlot? ==>
      |t.slots| == |s.slots| && ProcOf(t.slots[s.children[q].owner.slot]) == ProcOf(s.slots[s.children[q].owner.slot])
    requires s.children[q].owner.InStandby? ==> q in t.standby
    requires s.children[q].owner.InWarmer? ==> t.warmer == s.warmer
    ensures ChildOk(t, q)
  {
    hide Budget;
  }

  lemma CallFrame(s: State, t: State, d: nat)
    requires d in s.calls && d in t.calls && t.calls[d] == s.calls[d] && CallOk(s, d) && Grows(s, t)
    ensures CallOk(t, d)
  {
    hide Credited, Grows;
    var h := s.calls[d].history;
    forall k | 0 <= k < |h| ensures Credited(t, Tag(d, k), h[k]) { CreditedGrows(s, t, Tag(d, k), h[k]); }
  }

  predicate AtMost(s: State, t: State, i: int, p: int, c: int) {
    && t.cfg == s.cfg && |t.slots| == |s.slots|
    && (forall j :: 0 <= j < |s.slots| && j != i ==> t.slots[j] == s.slots[j])
    && (forall q :: 0 <= q < |t.children| && q != p ==> q < |s.children| && t.children[q] == s.children[q])
    && (forall d :: d in t.calls && d != c ==> d in s.calls && t.calls[d] == s.calls[d])
    && (forall d :: d in s.calls && d != c ==> d in t.calls)
  }

  /** Only slot i, child p and call c change; no other slot refers to that child or call. */
  predicate Local(s: State, t: State, i: int, p: int, c: int) {
    && AtMost(s, t, i, p, c) && Grows(s, t)
    && (forall j :: 0 <= j < |s.slots| && j != i ==> !(ProcOf(s.slots[j]).Some? && ProcOf(s.slots[j]).value == p))
    && (forall j :: 0 <= j < |s.slots| && j != i && s.slots[j].Held? ==> s.slots[j].tag.call != c)
    && (forall q :: q in s.standby && q != p ==> q in t.standby)
    && (s.warmer.Holding? && s.warmer.pid != p ==> t.warmer == s.warmer)
    && (0 <= i < |s.slots| && ProcOf(s.slots[i]).Some? && ProcOf(s.slots[i]).value != p ==>
          ProcOf(t.slots[i]) == ProcOf(s.slots[i]))
  }

  /** A local step needs checking only where it acts. */
  lemma LocalStep(s: State, t: State, i: int, p: int, c: int)
    requires SlotsOk(s) && ChildrenOk(s) && CallsOk(s) && Local(s, t, i, p, c)
    requires 0 <= i < |t.slots| ==> SlotOk(t, i)
    requires 0 <= p < |t.children| ==> ChildOk(t, p)
    requires c >= 0 && c in t.calls ==> CallOk(t, c)
    ensures SlotsOk(t) && ChildrenOk(t) && CallsOk(t)
  {
    hide SlotOk, ChildOk, CallOk;
    forall j | 0 <= j < |t.slots| && j != i ensures SlotOk(t, j) {
      SlotElim(s, j);
      if ProcOf(s.slots[j]).Some? {
        var q := ProcOf(s.slots[j]).value;
        assert t.children[q] == s.children[q];
      }
      SlotFrame(s, t, j);
    }
    forall q | 0 <= q < |t.children| && q != p ensures ChildOk(t, q) {
      var child := t.children[q];
      assert q < |s.children| && child == s.children[q];
      ChildElim(s, q);
      ChildFrame(s, t, q);
    }
    forall d | d in t.calls && d != c ensures CallOk(t, d) { CallFrame(s, t, d); }
  }

  lemma SlotElim(s: State, j: nat)
    requires SlotsOk(s) && j < |s.slots|
    ensures SlotOk(s, j)
    ensures ProcOf(s.slots[j]).Some? ==>
      ProcOf(s.slots[j]).value < |s.children| && s.children[ProcOf(s.slots[j]).value].owner == InSlot(j)
    ensures s.slots[j].Held? ==> s.slots[j].tag.call in s.calls && s.calls[s.slots[j].tag.call].state == Busy
  {
    assert SlotOk(s, j);
  }

  lemma ChildElim(s: State, q: Pid)
    requires ChildrenOk(s) && q < |s.children|
    ensures ChildOk(s, q)
    ensures s.children[q].owner.InSlot? ==>
      s.children[q].owner.slot < |s.slots| && ProcOf(s.slots[s.children[q].owner.slot]) == Some(q)
    ensures s.children[q].owner.InStandby? ==> q in s.standby
    ensures s.children[q].owner.InWarmer? ==> s.warmer == Holding(q)
  {
    assert ChildOk(s, q);
  }

  /** A child held in slot i is in no other slot, not in standby and not with the warmer. */
  lemma Alone(s: State, i: nat, p: Pid)
    requires Inv(s) && i < |s.slots| && ProcOf(s.slots[i]) == Some(p)
    ensures p < |s.children| && s.children[p].owner == InSlot(i)
    ensures forall j :: 0 <= j < |s.slots| && j != i ==> ProcOf(s.slots[j]) != Some(p)
    ensures p !in s.standby && s.warmer != Holding(p)
  {
    hide SlotOk, ChildrenOk, CallsOk, CloseOk, CallsApart;
    SlotElim(s, i);
    forall j | 0 <= j < |s.slots| && j != i ensures ProcOf(s.slots[j]) != Some(p) { SlotElim(s, j); }
  }

  /** A child outside the slots is in none of them. */
  lemma Elsewhere(s: State, p: Pid)
    requires Inv(s) && p < |s.children| && !s.children[p].owner.InSlot?
    ensures forall j :: 0 <= j < |s.slots| ==> ProcOf(s.slots[j]) != Some(p)
  {
    hide SlotOk, ChildrenOk, CallsOk, CloseOk, CallsApart, WarmOk;
    forall j | 0 <= j < |s.slots| ensures ProcOf(s.slots[j]) != Some(p) { SlotElim(s, j); }
  }

  /** A call that is not busy is held by no slot. */
  lemma Unheld(s: State, c: nat)
    requires Inv(s) && (c in s.calls ==> s.calls[c].state != Busy)
    ensures forall j :: 0 <= j < |s.slots| && s.slots[j].Held? ==> s.slots[j].tag.call != c
  {
    hide SlotOk, ChildrenOk, CallsOk, CloseOk, CallsApart, WarmOk;
    forall j | 0 <= j < |s.slots| && s.slots[j].Held? ensures s.slots[j].tag.call != c { SlotElim(s, j); }
  }

  // ---------------------------------------------------------------- calls

  lemma CallSteps(s: State, c: nat, e: Event)
    requires Inv(s) && Enabled(s, e) && (e == NewCall(c) || e == Refuse(c))
    ensures Inv(Apply(s, e))
  {
    hide SlotOk, ChildOk, Pristine;
    var t := Apply(s, e);
    Unheld(s, c);
    assert CallOk(t, c) by {
      if e == Refuse(c) { assert CallOk(s, c); CallGrowsHistory(s, t, c); }
    }
    assert Grows(s, t);
    LocalStep(s, t, -1, -1, c);
  }

  lemma CallGrowsHistory(s: State, t: State, c: nat)
    requires c in s.calls && c in t.calls && CallOk(s, c) && s.calls[c].state != Done && t.children == s.children
    requires t.calls[c] == Call(s.calls[c].history + [Refused], Done)
    ensures CallOk(t, c)
  {
    var h := s.calls[c].history;
    assert forall k :: 0 <= k < |h| ==> Credited(s, Tag(c, k), h[k]);
  }

  lemma AcquireStep(s: State, c: nat, i: nat)
    requires Inv(s) && Enabled(s, Acquire(c, i))
    ensures Inv(Apply(s, Acquire(c, i)))
  {
    hide ChildOk, Pristine, Rested;
    var t := Apply(s, Acquire(c, i));
    Unheld(s, c);
    assert CallOk(s, c) && SlotOk(s, i);
    assert CallOk(t, c) && SlotOk(t, i);
    hide SlotOk, CallOk;
    assert Grows(s, t);
    LocalStep(s, t, i, -1, c);
  }

  lemma ReleaseStep(s: State, i: nat)
    requires Inv(s) && Enabled(s, Release(i))
    ensures Inv(Apply(s, Release(i)))
  {
    hide ChildOk, Pristine, Rested;
    var t := Apply(s, Release(i));
    var c := s.slots[i].tag.call;
    SlotElim(s, i);
    assert CallOk(s, c);
    ReleasedCall(s, t, i);
    assert SlotOk(t, i);
    hide SlotOk, CallOk;
    assert Grows(s, t);
    LocalStep(s, t, i, -1, c);
  }

  lemma ReleasedCall(s: State, t: State, i: nat)
    requires Enabled(s, Release(i)) && t == Apply(s, Release(i))
    requires SlotOk(s, i) && CallOk(s, s.slots[i].tag.call)
    ensures CallOk(t, s.slots[i].tag.call)
  {
    hide Rested, InFlight, Delivered;
    var c, o := s.slots[i].tag.call, s.slots[i].phase.outcome;
    var h := s.calls[c].history;
    var h' := h + [o];
    assert t.calls[c].history == h' && t.children == s.children;
    forall k | 0 <= k < |h'| ensures Credited(t, Tag(c, k), h'[k]) {
      if k < |h| { assert Credited(s, Tag(c, k), h[k]); } else { assert Credited(s, s.slots[i].tag, o); }
    }
  }

  // ---------------------------------------------------------------- a slot and its child

  /** Steps of the holder that touch nothing but its slot. */
  lemma SlotOnly(s: State, t: State, i: nat)
    requires Inv(s) && HeldIn(s, i) && i < |t.slots| && t == Put(s, i, t.slots[i]) && t.slots[i].Held?
    requires t.slots[i].tag == s.slots[i].tag && ProcOf(t.slots[i]) == ProcOf(s.slots[i]) && SlotOk(t, i)
    ensures Inv(t)
  {
    hide SlotOk, ChildOk, CallOk, Pristine;
    SlotElim(s, i);
    assert Grows(s, t);
    LocalStep(s, t, i, -1, -1);
  }

  lemma HolderSteps(s: State, i: nat, e: Event)
    requires Inv(s) && Enabled(s, e) && (e == SpawnFail(i) || (e.Fail? && e.slot == i))
    ensures Inv(Apply(s, e))
  {
    hide ChildOk, CallOk, Pristine, Rested, InFlight, Delivered;
    var t := Apply(s, e);
    assert SlotOk(s, i) && SlotOk(t, i);
    SlotOnly(s, t, i);
  }

  /** Steps that change a held slot and the child in it, which stays there. */
  lemma SlotAndChild(s: State, t: State, i: nat, p: Pid)
    requires Inv(s) && HeldIn(s, i) && s.slots[i].proc == Some(p) && p < |s.children| && p < |t.children|
    requires i < |t.slots| && t == PutChild(Put(s, i, t.slots[i]), p, t.children[p]) && t.slots[i].Held?
    requires t.slots[i].tag == s.slots[i].tag && t.slots[i].proc == Some(p)
    requires t.children[p].owner == InSlot(i) && s.children[p].answers <= t.children[p].answers
    requires SlotOk(t, i) && Budget(s.cfg, t.children[p].answers)
    ensures Inv(t)
  {
    hide SlotOk, CallOk, Budget;
    SlotElim(s, i);
    Alone(s, i, p);
    assert Grows(s, t);
    LocalStep(s, t, i, p, -1);
    hide ChildOk;
    WarmFrame(s, t, p);
  }

  lemma WarmFrame(s: State, t: State, p: Pid)
    requires WarmOk(s) && t.cfg == s.cfg && t.standby == s.standby && t.warmer == s.warmer
    requires |t.children| == |s.children|
    requires forall q :: 0 <= q < |s.children| && q != p ==> t.children[q] == s.children[q]
    requires p !in s.standby && s.warmer != Holding(p)
    ensures WarmOk(t)
  {
    hide Pristine;
  }

  lemma SendStep(s: State, i: nat)
    requires Inv(s) && Enabled(s, Send(i))
    ensures Inv(Apply(s, Send(i)))
  {
    hide CallOk, Pristine;
    var t := Apply(s, Send(i));
    var p := s.slots[i].proc.value;
    assert SlotOk(s, i);
    var c := s.children[p];
    assert c.answers[..s.slots[i].ops] == c.answers;
    assert InFlight(t.cfg, t.children[p], s.slots[i].tag, s.slots[i].ops);
    ChildElim(s, p);
    SlotAndChild(s, t, i, p);
  }

  lemma ReceiveStep(s: State, i: nat)
    requires Inv(s) && Enabled(s, Receive(i))
    ensures Inv(Apply(s, Receive(i)))
  {
    hide CallOk, Pristine, Unspent;
    var t := Apply(s, Receive(i));
    var p := s.slots[i].proc.value;
    assert SlotOk(s, i);
    assert Delivered(t.cfg, t.children[p], s.slots[i].tag, s.slots[i].ops, s.children[p].outbox[0]);
    ChildElim(s, p);
    SlotAndChild(s, t, i, p);
  }

  /** Which slot, if any, a child with work in its pipes belongs to. */
  lemma Worker(s: State, p: Pid) returns (i: nat)
    requires Inv(s) && p < |s.children| && s.children[p].owner != Killed && !Quiet(s.children[p])
    ensures HeldIn(s, i) && s.slots[i].proc == Some(p) && (s.slots[i].phase == Waiting || s.slots[i].phase.Lost?)
    ensures SlotOk(s, i) && InFlight(s.cfg, s.children[p], s.slots[i].tag, s.slots[i].ops)
  {
    hide CallsOk, CloseOk, CallsApart, InFlight;
    ChildElim(s, p);
    i := s.children[p].owner.slot;
    SlotElim(s, i);
  }

  lemma ChildSteps(s: State, p: Pid, e: Event)
    requires Inv(s) && Enabled(s, e) && (e == ChildRead(p) || (e.ChildAnswer? && e.pid == p))
    ensures Inv(Apply(s, e))
  {
    var i := Worker(s, p);
    var t := Apply(s, e);
    var c := s.children[p];
    hide Inv;
    assert c.answers <= t.children[p].answers;
    if e.ChildAnswer? {
      var d := t.children[p];
      assert d.answers[..|c.answers|] == c.answers && c.answers[..s.slots[i].ops] == c.answers;
    } else {
      ChildBudget(s, p);
    }
    assert InFlight(t.cfg, t.children[p], s.slots[i].tag, s.slots[i].ops);
    hide InFlight;
    SlotAndChild(s, t, i, p);
  }

  lemma ChildBudget(s: State, p: Pid)
    requires Inv(s) && p < |s.children|
    ensures Budget(s.cfg, s.children[p].answers)
  {
    ChildElim(s, p);
  }

  lemma CrashStep(s: State, p: Pid)
    requires Inv(s) && Enabled(s, ChildCrash(p))
    ensures Inv(Apply(s, ChildCrash(p)))
  {
    hide CallOk;
    var t := Apply(s, ChildCrash(p));
    ChildElim(s, p);
    assert ChildOk(t, p);
    assert Grows(s, t);
    if s.children[p].owner.InSlot? {
      var i := s.children[p].owner.slot;
      Alone(s, i, p);
      assert SlotOk(s, i);
      assert SlotOk(t, i);
      hide SlotOk, ChildOk;
      LocalStep(s, t, i, p, -1);
    } else {
      Elsewhere(s, p);
      hide SlotOk, ChildOk;
      LocalStep(s, t, -1, p, -1);
    }
  }

  // ---------------------------------------------------------------- spawning and handing over

  lemma TakeStandbyStep(s: State, i: nat)
    requires Inv(s) && Enabled(s, TakeStandby(i))
    ensures Inv(Apply(s, TakeStandby(i)))
  {
    hide CallOk, SlotOk, ChildOk, SlotsOk, ChildrenOk, CallsOk, WarmOk, Apply;
    var t := Apply(s, TakeStandby(i));
    var p := s.standby[0];
    TakeStandbyShape(s, i);
    Elsewhere(s, p);
    LocalStep(s, t, i, p, -1);
    WarmTail(s, t, p);
  }

  lemma TakeStandbyShape(s: State, i: nat)
    requires Inv(s) && Enabled(s, TakeStandby(i))
    ensures var t, p := Apply(s, TakeStandby(i)), s.standby[0];
      && p < |s.children| && s.children[p].owner == InStandby && AtMost(s, t, i, p, -1) && Grows(s, t)
      && t.standby == s.standby[1..] && t.warmer == s.warmer && |t.children| == |s.children|
      && t.closer == s.closer && ProcOf(s.slots[i]) == None && t.slots[i].Held? && t.slots[i].tag == s.slots[i].tag
      && SlotOk(t, i) && ChildOk(t, p) && (forall q :: q in s.standby && q != p ==> q in t.standby)
  {
    hide CallOk, SlotsOk, ChildrenOk, CallsOk;
    var t := Apply(s, TakeStandby(i));
    var p := s.standby[0];
    SlotElim(s, i);
    ChildElim(s, p);
    assert Pristine(s.children[p], InStandby);
    assert s.standby == [p] + t.standby;
  }

  lemma WarmTail(s: State, t: State, p: Pid)
    requires WarmOk(s) && |s.standby| > 0 && p == s.standby[0] && t.cfg == s.cfg && |t.children| == |s.children|
    requires t.standby == s.standby[1..] && t.warmer == s.warmer
    requires forall q :: 0 <= q < |s.children| && q != p ==> t.children[q] == s.children[q]
    ensures WarmOk(t)
  {
    assert forall k :: 0 <= k < |t.standby| ==> t.standby[k] == s.standby[k + 1];
  }

  lemma SpawnStep(s: State, i: nat)
    requires Inv(s) && Enabled(s, Spawn(i))
    ensures Inv(Apply(s, Spawn(i)))
  {
    hide CallOk;
    var t := Apply(s, Spawn(i));
    var p := |s.children|;
    SlotElim(s, i);
    assert SlotOk(t, i);
    assert ChildOk(t, p);
    hide SlotOk, ChildOk, Pristine;
    assert Grows(s, t);
    forall j | 0 <= j < |s.slots| ensures ProcOf(s.slots[j]) != Some(p) { SlotElim(s, j); }
    LocalStep(s, t, i, p, -1);
  }

  // ---------------------------------------------------------------- killing

  lemma KillInSlot(s: State, t: State, i: nat, sl: Slot)
    requires Inv(s) && i < |s.slots| && ProcOf(sl) == None && sl != Drained
    requires s.slots[i].Held? && sl.Held? && sl.tag == s.slots[i].tag
    requires t == Kill(Put(s, i, sl), ProcOf(s.slots[i])) && SlotOk(t, i)
    ensures Inv(t)
  {
    hide SlotOk, CallOk, Pristine;
    SlotElim(s, i);
    var p := if ProcOf(s.slots[i]).Some? then ProcOf(s.slots[i]).value else -1;
    if p >= 0 {
      Alone(s, i, p);
      ChildElim(s, p);
      assert ChildOk(t, p);
    }
    hide ChildOk;
    assert Grows(s, t);
    LocalStep(s, t, i, p, -1);
    if p >= 0 { WarmFrame(s, t, p); }
  }

  lemma RetireStep(s: State, i: nat)
    requires Inv(s) && Enabled(s, RetireLost(i))
    ensures Inv(Apply(s, RetireLost(i)))
  {
    hide CallOk, ChildOk, Pristine, Rested, InFlight, Delivered;
    var t := Apply(s, RetireLost(i));
    assert SlotOk(s, i) && SlotOk(t, i);
    KillInSlot(s, t, i, t.slots[i]);
  }

  lemma AcceptStep(s: State, i: nat, decodes: bool, overMemory: bool)
    requires Inv(s) && Enabled(s, Accept(i, decodes, overMemory))
    ensures Inv(Apply(s, Accept(i, decodes, overMemory)))
  {
    hide CallOk, ChildOk, Pristine, InFlight;
    var t := Apply(s, Accept(i, decodes, overMemory));
    var sl, a := s.slots[i], s.slots[i].phase.answer;
    assert SlotOk(s, i);
    var p := sl.proc.value;
    var c := s.children[p];
    assert Delivered(s.cfg, c, sl.tag, sl.ops, a);
    assert a in c.answers;
    if !decodes || Recycles(s.cfg, sl.ops + 1, a, overMemory) {
      hide Delivered, Rested;
      assert t.children[p].answers == c.answers;
      assert SlotOk(t, i);
      KillInSlot(s, t, i, t.slots[i]);
    } else {
      assert c.answers == c.answers[..sl.ops] + [a];
      assert Unspent(s.cfg, c.answers);
      assert SlotOk(t, i);
      SlotOnly(s, t, i);
    }
  }

  lemma DrainStep(s: State, i: nat)
    requires Inv(s) && Enabled(s, DrainSlot(i))
    ensures Inv(Apply(s, DrainSlot(i)))
  {
    hide CallOk, Pristine;
    var t := Apply(s, DrainSlot(i));
    SlotElim(s, i);
    var p := if ProcOf(s.slots[i]).Some? then ProcOf(s.slots[i]).value else -1;
    if p >= 0 {
      Alone(s, i, p);
      ChildElim(s, p);
      assert ChildOk(t, p);
    }
    assert SlotOk(t, i);
    hide ChildOk, SlotOk;
    assert Grows(s, t);
    LocalStep(s, t, i, p, -1);
    if p >= 0 { WarmFrame(s, t, p); }
  }

  lemma SweepStep(s: State)
    requires Inv(s) && Enabled(s, SweepStandby)
    ensures Inv(Apply(s, SweepStandby))
  {
    hide CallOk, SlotOk;
    var t := Apply(s, SweepStandby);
    var p := s.standby[0];
    Elsewhere(s, p);
    ChildElim(s, p);
    assert ChildOk(t, p);
    hide ChildOk, Pristine;
    assert s.standby == [p] + t.standby;
    assert Grows(s, t);
    LocalStep(s, t, -1, p, -1);
    WarmTail(s, t, p);
  }

  // ---------------------------------------------------------------- the warmer and Close

  lemma WarmerSpawnStep(s: State)
    requires Inv(s) && Enabled(s, WarmerSpawn)
    ensures Inv(Apply(s, WarmerSpawn))
  {
    hide CallOk;
    var t := Apply(s, WarmerSpawn);
    var p := |s.children|;
    forall j | 0 <= j < |s.slots| ensures ProcOf(s.slots[j]) != Some(p) { SlotElim(s, j); }
    assert ChildOk(t, p);
    hide SlotOk, ChildOk;
    assert Grows(s, t);
    LocalStep(s, t, -1, p, -1);
  }

  lemma WarmerPushStep(s: State)
    requires Inv(s) && Enabled(s, WarmerPush)
    ensures Inv(Apply(s, WarmerPush))
  {
    hide CallOk, SlotOk;
    var t := Apply(s, WarmerPush);
    var p := s.warmer.pid;
    Elsewhere(s, p);
    ChildElim(s, p);
    assert t.standby[|s.standby|] == p;
    assert ChildOk(t, p);
    hide ChildOk;
    assert Grows(s, t);
    LocalStep(s, t, -1, p, -1);
    assert forall k :: 0 <= k < |s.standby| ==> s.standby[k] != p && t.standby[k] == s.standby[k];
  }

  lemma WarmerAbortStep(s: State)
    requires Inv(s) && Enabled(s, WarmerAbort)
    ensures Inv(Apply(s, WarmerAbort))
  {
    hide CallOk, SlotOk;
    var t := Apply(s, WarmerAbort);
    var p := s.warmer.pid;
    Elsewhere(s, p);
    ChildElim(s, p);
    assert ChildOk(t, p);
    hide ChildOk;
    assert Grows(s, t);
    LocalStep(s, t, -1, p, -1);
    assert forall k :: 0 <= k < |s.standby| ==> s.standby[k] != p;
  }

  lemma QuietSteps(s: State, e: Event)
    requires Inv(s) && Enabled(s, e)
    requires e.WarmerStart? || e.WarmerWake? || e.WarmerRest? || e.WarmerStop?
    ensures Inv(Apply(s, e))
  {
    hide CallOk, SlotOk, ChildOk, Pristine, SlotsOk, ChildrenOk, CallsOk;
    var t := Apply(s, e);
    assert Grows(s, t);
    LocalStep(s, t, -1, -1, -1);
  }

  lemma CloseSteps(s: State, e: Event)
    requires Inv(s) && Enabled(s, e) && (e.CloseBegin? || e.CloseEnd? || e.CloseAgain?)
    ensures Inv(Apply(s, e))
  {
    hide CallOk, SlotOk, ChildOk, Pristine, SlotsOk, ChildrenOk, CallsOk;
    var t := Apply(s, e);
    assert Grows(s, t);
    LocalStep(s, t, -1, -1, -1);
  }

  // ---------------------------------------------------------------- whole runs

  lemma InitInv(cfg: Config)
    ensures Inv(Init(cfg))
  {
    var s := Init(cfg);
    assert SlotOk(s, 0);
    assert ChildOk(s, 0);
  }

  /** Every step keeps the invariant. */
  lemma StepInv(s: State, e: Event)
    requires Inv(s) && Enabled(s, e)
    ensures Inv(Apply(s, e))
  {
    hide Inv, Enabled, Apply;
    match e
    case NewCall(c) => CallSteps(s, c, e);
    case Refuse(c) => CallSteps(s, c, e);
    case Acquire(c, i) => AcquireStep(s, c, i);
    case TakeStandby(i) => TakeStandbyStep(s, i);
    case Spawn(i) => SpawnStep(s, i);
    case SpawnFail(i) => HolderSteps(s, i, e);
    case Send(i) => SendStep(s, i);
    case Fail(i, _) => HolderSteps(s, i, e);
    case ChildRead(p) => ChildSteps(s, p, e);
    case ChildAnswer(p, _, _) => ChildSteps(s, p, e);
    case ChildCrash(p) => CrashStep(s, p);
    case Receive(i) => ReceiveStep(s, i);
    case RetireLost(i) => RetireStep(s, i);
    case Accept(i, d, m) => AcceptStep(s, i, d, m);
    case Release(i) => ReleaseStep(s, i);
    case WarmerSpawn => WarmerSpawnStep(s);
    case WarmerPush => WarmerPushStep(s);
    case WarmerAbort => WarmerAbortStep(s);
    case DrainSlot(i) => DrainStep(s, i);
    case SweepStandby => SweepStep(s);
    case WarmerStart => QuietSteps(s, e);
    case WarmerWake => QuietSteps(s, e);
    case WarmerRest => QuietSteps(s, e);
    case WarmerStop => QuietSteps(s, e);
    case CloseBegin => CloseSteps(s, e);
    case CloseEnd => CloseSteps(s, e);
    case CloseAgain => CloseSteps(s, e);
  }

  lemma CfgKept(s: State, e: Event)
    requires Enabled(s, e)
    ensures Apply(s, e).cfg == s.cfg
  {
    hide Put, PutChild, Move, Kill, Recycles;
  }

  lemma {:induction false} RunInv(s: State, es: seq<Event>)
    requires Inv(s) && Run(s, es).Some?
    ensures Inv(Run(s, es).value) && Run(s, es).value.cfg == s.cfg
    decreases |es|
  {
    hide Inv, Apply, Enabled;
    if |es| > 0 {
      StepInv(s, es[0]);
      CfgKept(s, es[0]);
      RunInv(Apply(s, es[0]), es[1..]);
    }
  }

  ghost predicate Reachable(cfg: Config, s: State) {
    exists es :: Run(Init(cfg), es) == Some(s)
  }

  lemma ReachableInv(cfg: Config, s: State)
    requires Reachable(cfg, s)
    ensures Inv(s) && s.cfg == cfg
  {
    hide Inv;
    var es :| Run(Init(cfg), es) == Some(s);
    InitInv(cfg);
    RunInv(Init(cfg), es);
  }

  /** Request/response pairing: an answered attempt got the answer its own child wrote to
      that very request, and a child resting in a slot has nothing in either pipe. */
  lemma Pairing(cfg: Config, s: State)
    requires Reachable(cfg, s)
    ensures forall c, k :: c in s.calls && 0 <= k < |s.calls[c].history| && s.calls[c].history[k].Answered? ==>
      var o := s.calls[c].history[k];
      o.answer.tag == Tag(c, k) && o.pid < |s.children| && o.answer in s.children[o.pid].answers
    ensures forall i :: 0 <= i < |s.slots| && s.slots[i].Free? && s.slots[i].proc.Some? ==>
      s.slots[i].proc.value < |s.children| && Quiet(s.children[s.slots[i].proc.value])
  {
    ReachableInv(cfg, s);
    forall c, k | c in s.calls && 0 <= k < |s.calls[c].history| ensures Credited(s, Tag(c, k), s.calls[c].history[k]) {
      assert CallOk(s, c);
    }
    forall i | 0 <= i < |s.slots| && s.slots[i].Free? && s.slots[i].proc.Some?
      ensures s.slots[i].proc.value < |s.children| && Quiet(s.children[s.slots[i].proc.value])
    {
      assert SlotOk(s, i);
    }
  }

  /** Retries: at most two attempts; whatever is followed by another attempt was a crash, and a
      call ends after one attempt only if that one did not crash. */
  lemma RetryBound(cfg: Config, s: State, c: nat)
    requires Reachable(cfg, s) && c in s.calls
    ensures |s.calls[c].history| <= 2
    ensures forall k :: 0 <= k < |s.calls[c].history| && (k + 1 < |s.calls[c].history| || s.calls[c].state != Done) ==>
      s.calls[c].history[k] == Crashed
    ensures s.calls[c].state == Done ==>
      |s.calls[c].history| >= 1 && (|s.calls[c].history| == 1 ==> s.calls[c].history[0] != Crashed)
  {
    ReachableInv(cfg, s);
    assert CallOk(s, c);
  }

  /** Retirement budget over a child's whole life. */
  lemma RetirementBudget(cfg: Config, s: State, p: Pid)
    requires Reachable(cfg, s) && p < |s.children|
    ensures MaxOps(cfg) > 0 ==> |s.children[p].answers| <= MaxOps(cfg)
    ensures !cfg.keepAfterRevoked ==>
      forall k :: 0 <= k < |s.children[p].answers| - 1 ==> !s.children[p].answers[k].revoked
  {
    ReachableInv(cfg, s);
    var answers := s.children[p].answers;
    ChildBudget(s, p);
    if |answers| > 0 {
      assert forall k :: 0 <= k < |answers| - 1 ==> answers[..|answers| - 1][k] == answers[k];
    }
  }

  /** Ownership: a live child is in exactly one slot, or once in standby, or with the warmer. */
  lemma OneOwner(cfg: Config, s: State, p: Pid)
    requires Reachable(cfg, s) && p < |s.children|
    ensures s.children[p].owner != Killed <==>
      (exists i :: 0 <= i < |s.slots| && ProcOf(s.slots[i]) == Some(p)) || p in s.standby || s.warmer == Holding(p)
    ensures forall i, j :: 0 <= i < j < |s.slots| && ProcOf(s.slots[i]) == Some(p) ==> ProcOf(s.slots[j]) != Some(p)
    ensures forall i :: 0 <= i < |s.slots| && ProcOf(s.slots[i]) == Some(p) ==>
      p !in s.standby && s.warmer != Holding(p)
    ensures forall k, l :: 0 <= k < l < |s.standby| ==> s.standby[k] != s.standby[l]
    ensures p in s.standby ==> s.warmer != Holding(p)
  {
    ReachableInv(cfg, s);
    hide SlotOk, ChildOk, CallsOk, CloseOk, CallsApart;
    ChildElim(s, p);
    forall i | 0 <= i < |s.slots| && ProcOf(s.slots[i]) == Some(p)
      ensures s.children[p].owner == InSlot(i) && p !in s.standby && s.warmer != Holding(p)
    {
      Alone(s, i, p);
    }
  }

  ghost function Live(s: State): (r: set<Pid>) {
    set p | 0 <= p < |s.children| && s.children[p].owner != Killed
  }

  function InSlots(slots: seq<Slot>): (r: set<Pid>)
    ensures |r| <= |slots|
    ensures forall i :: 0 <= i < |slots| && ProcOf(slots[i]).Some? ==> ProcOf(slots[i]).value in r
  {
    if |slots| == 0 then {}
    else InSlots(slots[1..]) + (if ProcOf(slots[0]).Some? then {ProcOf(slots[0]).value} else {})
  }

  function Members(ps: seq<Pid>): (r: set<Pid>)
    ensures |r| <= |ps| && forall p :: p in ps ==> p in r
  {
    if |ps| == 0 then {} else {ps[0]} + Members(ps[1..])
  }

  /** Bound: never more live children than slots and standby places together. */
  lemma LiveBound(cfg: Config, s: State)
    requires Reachable(cfg, s)
    ensures |Live(s)| <= Size(cfg) + Standby(cfg)
  {
    ReachableInv(cfg, s);
    var warm := Members(s.standby) + (if s.warmer.Holding? then {s.warmer.pid} else {});
    hide SlotOk, ChildOk, CallsOk, CallsApart;
    forall p | p in Live(s) ensures p in InSlots(s.slots) + warm { ChildElim(s, p); }
    SubsetSize(Live(s), InSlots(s.slots) + warm);
  }

  /** When the Close that began the shutdown has returned, every child that was ever started has
      been killed. */
  lemma CloseKillsAll(cfg: Config, s: State)
    requires Reachable(cfg, s) && s.closer == Closed
    ensures forall p :: 0 <= p < |s.children| ==> s.children[p].owner == Killed
  {
    ReachableInv(cfg, s);
    hide SlotOk, ChildOk, CallsOk, CallsApart;
    forall p | 0 <= p < |s.children| ensures s.children[p].owner == Killed { ChildElim(s, p); }
  }

  /** Not so for a further Close: in this run it returns while the first child is alive. */
  lemma LateCloseReturnsEarly(cfg: Config) returns (s: State)
    ensures Reachable(cfg, s) && s.lateCloses == 1 && s.closer == Closing && |s.children| == 1
      && s.children[0].owner == InSlot(0)
  {
    var s0 := Init(cfg);
    var s1 := Apply(s0, CloseBegin);
    s := Apply(s1, CloseAgain);
    assert Run(s, []) == Some(s);
    assert Run(s1, [CloseAgain]) == Some(s) by { assert [CloseAgain][1..] == []; }
    assert Run(s0, [CloseBegin, CloseAgain]) == Some(s) by { assert [CloseBegin, CloseAgain][1..] == [CloseAgain]; }
  }

  /** A further Close leaves live children behind only while the first one is still at work. */
  lemma LateCloseSafe(cfg: Config, s: State)
    requires Reachable(cfg, s) && Enabled(s, CloseAgain)
    ensures s.closer == Closed ==> Live(s) == {}
    ensures Live(s) != {} ==> s.closer == Closing
  {
    hide Reachable;
    if s.closer == Closed { CloseKillsAll(cfg, s); }
  }

  /** A request is only ever written to a live child... */
  lemma NoCallAfterKill(cfg: Config, s: State, i: nat)
    requires Reachable(cfg, s) && Enabled(s, Send(i))
    ensures s.children[s.slots[i].proc.value].owner == InSlot(i)
  {
    ReachableInv(cfg, s);
    SlotElim(s, i);
  }

  predicate ActsOnSlot(e: Event) {
    e.Send? || e.Receive? || e.RetireLost? || e.Accept? || e.DrainSlot?
  }

  lemma FrozenBySlotSteps(s: State, e: Event, p: Pid)
    requires Inv(s) && Enabled(s, e) && ActsOnSlot(e) && p < |s.children| && s.children[p].owner == Killed
    ensures p < |Apply(s, e).children| && Apply(s, e).children[p] == s.children[p]
  {
    hide SlotOk, ChildOk, CallOk, Pristine, CallsApart, CloseOk, WarmOk, CallsOk, ChildrenOk;
    SlotElim(s, e.slot);
  }

  lemma FrozenByWarmSteps(s: State, e: Event, p: Pid)
    requires Inv(s) && Enabled(s, e) && p < |s.children| && s.children[p].owner == Killed
    requires e.TakeStandby? || e.WarmerPush? || e.WarmerAbort? || e.SweepStandby?
    ensures p < |Apply(s, e).children| && Apply(s, e).children[p] == s.children[p]
  {
    hide SlotsOk, CallsApart, CloseOk, CallsOk, ChildrenOk;
    var q := if e.TakeStandby? || e.SweepStandby? then s.standby[0] else s.warmer.pid;
    assert s.children[q].owner != Killed;
  }

  /** ... and a killed child never changes again. */
  lemma KilledIsFrozen(cfg: Config, s: State, e: Event, p: Pid)
    requires Reachable(cfg, s) && Enabled(s, e) && p < |s.children| && s.children[p].owner == Killed
    ensures p < |Apply(s, e).children| && Apply(s, e).children[p] == s.children[p]
  {
    ReachableInv(cfg, s);
    hide Inv, Reachable;
    if ActsOnSlot(e) {
      FrozenBySlotSteps(s, e, p);
    } else if e.TakeStandby? || e.WarmerPush? || e.WarmerAbort? || e.SweepStandby? {
      FrozenByWarmSteps(s, e, p);
    }
  }
}
