/** What single steps of the supervisor do to a call and to a child, in plain terms. */
module SupervisorRules {
  import opened Prelude
  import opened Supervisor
  import opened SupervisorSafety

  /** At least one slot, no negative standby, a thousand operations by default and no budget when negative. */
  lemma Defaults(cfg: Config)
    ensures Size(cfg) == if cfg.size < 1 then 1 else cfg.size
    ensures Standby(cfg) == if cfg.standby < 0 then 0 else cfg.standby
    ensures MaxOps(cfg) == if cfg.maxOps == 0 then 1000 else cfg.maxOps
  {
  }

  /** The reasons to retire a child that has answered its n-th request: a revoked verdict, its
      budget, or, every sixteenth time it is looked at, its memory. */
  predicate Retired(cfg: Config, n: nat, revoked: bool, overMemory: bool) {
    || (revoked && !cfg.keepAfterRevoked)
    || (cfg.maxOps == 0 && n >= 1000) || (cfg.maxOps > 0 && n >= cfg.maxOps)
    || (overMemory && n % 16 == 0)
  }

  /** An answer settles the attempt; its child is killed if and only if the answer could not be
      decoded or there is a reason to retire it, and else stays in the slot, counted. */
  lemma AnswerSettles(cfg: Config, s: State, i: nat, decodes: bool, overMemory: bool)
    requires Reachable(cfg, s) && Enabled(s, Accept(i, decodes, overMemory)) && s.slots[i].proc.Some?
    ensures var t, sl, p := Apply(s, Accept(i, decodes, overMemory)), s.slots[i], s.slots[i].proc.value;
      var gone := !decodes || Retired(cfg, sl.ops + 1, sl.phase.answer.revoked, overMemory);
      && p < |s.children| && i < |t.slots| && p < |t.children|
      && t.slots[i] == Held(sl.tag, Settled(if decodes then Answered(p, sl.phase.answer) else Undecodable),
                            if gone then None else Some(p), if gone then 0 else sl.ops + 1)
      && (t.children[p].owner == Killed <==> gone)
  {
    hide Reachable;
    ReachableInv(cfg, s);
    SlotElim(s, i);
  }

  /** A lost attempt takes its child with it. */
  lemma LostChildDies(cfg: Config, s: State, i: nat)
    requires Reachable(cfg, s) && Enabled(s, RetireLost(i)) && s.slots[i].proc.Some?
    ensures var t, sl, p := Apply(s, RetireLost(i)), s.slots[i], s.slots[i].proc.value;
      && i < |t.slots| && t.slots[i] == Held(sl.tag, Settled(sl.phase.why), None, 0)
      && p < |t.children| && t.children[p].owner == Killed
  {
    hide Reachable;
    ReachableInv(cfg, s);
    SlotElim(s, i);
  }

  /** Giving the slot back records the outcome; the call tries again if and only if that was a
      crash of its first attempt, and the child, if one is left, rests in the slot. */
  lemma ReleaseDecides(cfg: Config, s: State, i: nat)
    requires Reachable(cfg, s) && Enabled(s, Release(i))
    ensures var t, sl, c := Apply(s, Release(i)), s.slots[i], s.slots[i].tag.call;
      && i < |t.slots| && t.slots[i] == Free(sl.proc, sl.ops) && c in t.calls && sl.tag.attempt < 2
      && t.calls[c].history == s.calls[c].history + [sl.phase.outcome]
      && t.calls[c].state == if sl.phase.outcome == Crashed && sl.tag.attempt == 0 then Trying else Done
  {
    hide Reachable;
    ReachableInv(cfg, s);
    SlotElim(s, i);
    assert CallOk(s, s.slots[i].tag.call);
  }

  /** An empty slot gets the oldest child on standby, or a new one; either has answered nothing. */
  lemma FreshChild(cfg: Config, s: State, i: nat, e: Event)
    requires Reachable(cfg, s) && Enabled(s, e) && (e == TakeStandby(i) || e == Spawn(i))
    ensures var t := Apply(s, e); var p := if e == Spawn(i) then |s.children| else s.standby[0];
      && i < |t.slots| && t.slots[i].Held? && t.slots[i].proc == Some(p) && t.slots[i].ops == 0 && p < |t.children|
      && t.children[p].owner == InSlot(i) && t.children[p].answers == [] && Quiet(t.children[p])
      && (e == TakeStandby(i) ==> t.standby == s.standby[1..])
  {
    hide Reachable;
    ReachableInv(cfg, s);
  }

  /** A slot that gets no child settles its attempt as refused, so giving it back ends the call:
      that nothing could be started is not retried. */
  lemma NoChildEndsCall(cfg: Config, s: State, i: nat)
    requires Reachable(cfg, s) && Enabled(s, SpawnFail(i))
    ensures var t := Apply(s, SpawnFail(i));
      t.slots == s.slots[i := Held(s.slots[i].tag, Settled(Refused), None, s.slots[i].ops)] && t.children == s.children
    ensures var t, c := Apply(s, SpawnFail(i)), s.slots[i].tag.call;
      Enabled(t, Release(i)) && c in s.calls
      && Apply(t, Release(i)).calls == s.calls[c := Call(s.calls[c].history + [Refused], Done)]
  {
    hide Reachable;
    ReachableInv(cfg, s);
    SlotElim(s, i);
  }

  /** A run in which the first attempt of a call is lost to a crash and the second is answered. */
  lemma RetryAnswered() returns (s: State)
    ensures Reachable(Config(1, 0, 0, false), s) && 0 in s.calls && s.calls[0].state == Done
    ensures s.calls[0].history == [Crashed, Answered(1, Answer(Tag(0, 1), 5, false))]
  {
    var cfg := Config(1, 0, 0, false);
    var s1 := Crash(cfg);
    s := Again(cfg, s1);
  }

  lemma Extend(cfg: Config, s: State, e: Event)
    requires Reachable(cfg, s) && Enabled(s, e)
    ensures Reachable(cfg, Apply(s, e))
  {
    hide Apply, Enabled, Init;
    var es :| Run(Init(cfg), es) == Some(s);
    RunSnoc(Init(cfg), es, e);
  }

  lemma {:induction false} RunSnoc(s: State, es: seq<Event>, e: Event)
    requires Run(s, es).Some? && Enabled(Run(s, es).value, e)
    ensures Run(s, es + [e]) == Some(Apply(Run(s, es).value, e))
    decreases |es|
  {
    hide Apply, Enabled;
    if |es| == 0 {
      assert es + [e] == [e] && [e][1..] == [];
      assert Run(Apply(s, e), []) == Some(Apply(s, e));
    } else {
      assert (es + [e])[1..] == es[1..] + [e];
      RunSnoc(Apply(s, es[0]), es[1..], e);
    }
  }

  lemma Crash(cfg: Config) returns (s: State)
    requires cfg == Config(1, 0, 0, false)
    ensures Reachable(cfg, s) && s.cfg == cfg && s.slots == [Free(None, 0)]
    ensures s.calls == map[0 := Call([Crashed], Trying)]
    ensures |s.children| == 1
  {
    hide Reachable;
    s := Init(cfg);
    assert Reachable(cfg, s) by { StartReachable(cfg); }
    Extend(cfg, s, NewCall(0));
    s := Apply(s, NewCall(0));
    Extend(cfg, s, Acquire(0, 0));
    s := Apply(s, Acquire(0, 0));
    Extend(cfg, s, Send(0));
    s := Apply(s, Send(0));
    assert s.slots == [Held(Tag(0, 0), Waiting, Some(0), 0)] && s.calls == map[0 := Call([], Busy)];
    s := Lost(cfg, s);
  }

  lemma Lost(cfg: Config, s0: State) returns (s: State)
    requires Reachable(cfg, s0) && cfg == Config(1, 0, 0, false) && s0.cfg == cfg && |s0.children| == 1
    requires s0.slots == [Held(Tag(0, 0), Waiting, Some(0), 0)] && s0.calls == map[0 := Call([], Busy)]
    requires s0.children[0].owner == InSlot(0) && !s0.children[0].crashed
    ensures Reachable(cfg, s) && s.cfg == cfg && s.slots == [Free(None, 0)]
    ensures s.calls == map[0 := Call([Crashed], Trying)]
    ensures |s.children| == 1
  {
    hide Reachable;
    s := s0;
    Extend(cfg, s, ChildCrash(0));
    s := Apply(s, ChildCrash(0));
    Extend(cfg, s, Fail(0, Crashed));
    s := Apply(s, Fail(0, Crashed));
    Extend(cfg, s, RetireLost(0));
    s := Apply(s, RetireLost(0));
    Extend(cfg, s, Release(0));
    s := Apply(s, Release(0));
    assert s.slots == [Free(None, 0)];
    assert [] + [Crashed] == [Crashed];
    assert s.calls == map[0 := Call([Crashed], Trying)];
  }

  lemma StartReachable(cfg: Config)
    ensures Reachable(cfg, Init(cfg))
  {
    assert Run(Init(cfg), []) == Some(Init(cfg));
  }

  lemma Again(cfg: Config, s1: State) returns (s: State)
    requires cfg == Config(1, 0, 0, false) && Reachable(cfg, s1) && s1.cfg == cfg
    requires s1.slots == [Free(None, 0)] && s1.calls == map[0 := Call([Crashed], Trying)] && |s1.children| == 1
    ensures Reachable(cfg, s) && 0 in s.calls && s.calls[0].state == Done
    ensures s.calls[0].history == [Crashed, Answered(1, Answer(Tag(0, 1), 5, false))]
  {
    hide Reachable;
    s := s1;
    Extend(cfg, s, Acquire(0, 0));
    s := Apply(s, Acquire(0, 0));
    Extend(cfg, s, Spawn(0));
    s := Apply(s, Spawn(0));
    Extend(cfg, s, Send(0));
    s := Apply(s, Send(0));
    Extend(cfg, s, ChildRead(1));
    s := Apply(s, ChildRead(1));
    Extend(cfg, s, ChildAnswer(1, 5, false));
    s := Apply(s, ChildAnswer(1, 5, false));
    Extend(cfg, s, Receive(0));
    s := Apply(s, Receive(0));
    Extend(cfg, s, Accept(0, true, false));
    s := Apply(s, Accept(0, true, false));
    Extend(cfg, s, Release(0));
    s := Apply(s, Release(0));
  }
}
