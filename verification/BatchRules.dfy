/**
 What a batch does with its settings, and that it comes to an end: how many items may
 run, when nothing more is started, and that every schedule reaches the return.
 */
module BatchRules {
  import opened Prelude
  import opened Batch

  // ---------------------------------------------------------------- the settings

  /** As many items may run as the request says; where it says nothing, as the service does; and
      always one. */
  lemma PermitsExactly(p: Setup)
    ensures p.concurrency >= 1 ==> Permits(p) == p.concurrency
    ensures p.concurrency <= 0 && p.defaultConcurrency >= 1 ==> Permits(p) == p.defaultConcurrency
    ensures p.concurrency <= 0 && p.defaultConcurrency <= 0 ==> Permits(p) == 1
  {
  }

  /** Someone waiting for a permit gets one exactly when fewer items are running than allowed. */
  lemma RoomIsUsed<O>(p: Setup, steps: seq<Step<O>>)
    requires Run(p, steps).dispatcher == Acquiring
    ensures Enabled(p, Run(p, steps), Acquire) <==> |Run(p, steps).tasks| < Permits(p)
  {
    RunInv(p, steps);
  }

  // ---------------------------------------------------------------- when nothing more is started

  predicate HasFailed<O>(s: State<O>, i: nat) { i < |s.results| && s.results[i].Done? && s.results[i].outcome.Failed? }

  /** How many items the dispatcher is past asking about. */
  function OnTheWay<O>(s: State<O>): (n: nat) { if s.dispatcher == Acquiring || s.dispatcher == Holding then 1 else 0 }

  lemma NoneAfterFailure<O>(p: Setup, s: State<O>, a: Step<O>)
    requires p.failFast && s.failed && Enabled(p, s, a)
    ensures Apply(p, s, a).failed && Apply(p, s, a).next == s.next
  {
  }

  lemma {:induction false} StillFailed<O>(p: Setup, steps: seq<Step<O>>, more: seq<Step<O>>)
    requires p.failFast && Run(p, steps).failed
    ensures Run(p, steps + more).failed && Run(p, steps + more).next == Run(p, steps).next
  {
    hide Apply, Enabled;
    if |more| == 0 {
      assert steps + more == steps;
    } else {
      var n := |more| - 1;
      StillFailed(p, steps, more[..n]);
      RunOneMore(p, steps + more[..n], more[n]);
      assert steps + more == steps + more[..n] + [more[n]];
      var s := Run(p, steps + more[..n]);
      if Enabled(p, s, more[n]) { NoneAfterFailure(p, s, more[n]); }
    }
  }

  lemma RunOneMore<O>(p: Setup, steps: seq<Step<O>>, a: Step<O>)
    ensures Run(p, steps + [a]) == if Enabled(p, Run(p, steps), a) then Apply(p, Run(p, steps), a) else Run(p, steps)
  {
    hide Apply, Enabled;
    assert (steps + [a])[..|steps + [a]| - 1] == steps;
  }

  /** Under the fail-fast policy, once a failure has been stored not one more item is started,
      however the run goes on. */
  lemma FailFastStops<O>(p: Setup, steps: seq<Step<O>>, i: nat, more: seq<Step<O>>)
    requires p.failFast && HasFailed(Run(p, steps), i)
    ensures Run(p, steps + more).next == Run(p, steps).next
  {
    RunInv(p, steps);
    hide Run, Slots, Stream, Tallies, PermitsOk, Dispatch;
    StillFailed(p, steps, more);
  }

  lemma FewAfterCancel<O>(p: Setup, s: State<O>, a: Step<O>)
    requires s.cancelled && Enabled(p, s, a)
    ensures var t := Apply(p, s, a); t.cancelled && t.next + OnTheWay(t) <= s.next + OnTheWay(s)
  {
  }

  /** After a cancellation at most the one item the dispatcher was about to start is started. */
  lemma {:induction false} CancelStops<O>(p: Setup, steps: seq<Step<O>>, more: seq<Step<O>>)
    requires Run(p, steps).cancelled
    ensures var s, t := Run(p, steps), Run(p, steps + more);
      t.cancelled && t.next + OnTheWay(t) <= s.next + OnTheWay(s)
  {
    hide Apply, Enabled;
    if |more| == 0 {
      assert steps + more == steps;
    } else {
      var n := |more| - 1;
      CancelStops(p, steps, more[..n]);
      RunOneMore(p, steps + more[..n], more[n]);
      assert steps + more == steps + more[..n] + [more[n]];
      var s := Run(p, steps + more[..n]);
      if Enabled(p, s, more[n]) { FewAfterCancel(p, s, more[n]); }
    }
  }

  /** An item is left out only under a cancellation or, with the fail-fast policy, a failure; so
      a batch that carries on and is not cancelled runs everything. */
  lemma CarriesOn<O>(p: Setup, steps: seq<Step<O>>)
    requires !p.failFast && Cancel !in steps && Run(p, steps).dispatcher == Finished
    ensures var s := Run(p, steps);
      s.next == p.total == |s.results| && forall i :: 0 <= i < p.total ==> s.results[i].Done?
  {
    NotCancelled(p, steps);
    BatchConserves(p, steps);
    hide Run;
    var s := Run(p, steps);
    forall i | 0 <= i < p.total ensures s.results[i].Done? { assert s.results[i] == Done(i, s.outcomes[i]); }
  }

  lemma {:induction false} NotCancelled<O>(p: Setup, steps: seq<Step<O>>)
    requires Cancel !in steps
    ensures !Run(p, steps).cancelled
  {
    if |steps| > 0 { NotCancelled(p, steps[..|steps| - 1]); }
  }

  // ---------------------------------------------------------------- the batch returns

  ghost function Pendings<O>(s: State<O>): (r: set<nat>) { set i | i in s.tasks && Pending(s, i) }

  ghost function Uncounteds<O>(s: State<O>): (r: set<nat>) { set i | i in s.tasks && Uncounted(s, i) }

  function Rank(d: Dispatcher): (n: nat) {
    match d case Looping => 4 case Acquiring => 3 case Holding => 2 case Draining => 1 case Finished => 0
  }

  /** A bound on the steps still to come: seven for an item not yet started. */
  ghost function StepsLeft<O>(p: Setup, s: State<O>): (n: nat)
    requires s.next <= p.total
  {
    7 * (p.total - s.next) + Rank(s.dispatcher)
    + |s.tasks.Keys| + |Uncounteds(s)| + |Pendings(s)| + |InCall(s)|
  }

  lemma Started<O>(s: State<O>, t: State<O>)
    requires s.next !in s.tasks && t.tasks == s.tasks[s.next := Calling]
    ensures t.tasks.Keys == s.tasks.Keys + {s.next} && Uncounteds(t) == Uncounteds(s) + {s.next}
    ensures Pendings(t) == Pendings(s) + {s.next} && InCall(t) == InCall(s) + {s.next}
  {
  }

  lemma Progressed<O>(s: State<O>, t: State<O>, i: nat)
    requires i in s.tasks && forall k :: k in s.tasks && k != i ==> k in t.tasks && t.tasks[k] == s.tasks[k]
    requires t.tasks.Keys == s.tasks.Keys
    requires !s.tasks[i].Called? ==>
      (s.tasks[i].Calling? && t.tasks[i].Called?) || (s.tasks[i].Stored? && t.tasks[i].Counted?)
    requires s.tasks[i].Called? ==> t.tasks[i].Stored?
    ensures InCall(t) == InCall(s) - (if s.tasks[i].Calling? then {i} else {})
    ensures Pendings(t) == Pendings(s) - (if s.tasks[i].Called? then {i} else {})
    ensures Uncounteds(t) == Uncounteds(s) - (if s.tasks[i].Stored? then {i} else {})
    ensures s.tasks[i].Calling? ==> i in InCall(s)
    ensures s.tasks[i].Called? ==> i in Pendings(s)
    ensures s.tasks[i].Stored? ==> i in Uncounteds(s)
  {
  }

  lemma ProgressCounts<O>(s: State<O>, t: State<O>, i: nat)
    requires i in s.tasks && forall k :: k in s.tasks && k != i ==> k in t.tasks && t.tasks[k] == s.tasks[k]
    requires t.tasks.Keys == s.tasks.Keys
    requires match s.tasks[i]
      case Calling => t.tasks[i].Called?
      case Called(_) => t.tasks[i].Stored?
      case Stored => t.tasks[i].Counted?
      case Counted => false
    ensures |Uncounteds(t)| + |Pendings(t)| + |InCall(t)| < |Uncounteds(s)| + |Pendings(s)| + |InCall(s)|
  {
    Progressed(s, t, i);
    hide Uncounteds, Pendings, InCall;
  }

  lemma Gone<O>(s: State<O>, t: State<O>, i: nat)
    requires i in s.tasks && s.tasks[i].Counted? && t.tasks == s.tasks - {i}
    ensures t.tasks.Keys == s.tasks.Keys - {i}
    ensures InCall(t) == InCall(s) && Pendings(t) == Pendings(s) && Uncounteds(t) == Uncounteds(s)
  {
  }

  lemma DispatcherAdvances<O>(p: Setup, s: State<O>, a: Step<O>)
    requires PermitsOk(p, s) && Dispatch(p, s) && Enabled(p, s, a)
    requires a.LoopTop? || a.Acquire? || a.Join? || a.Recheck?
    ensures Apply(p, s, a).next <= p.total && StepsLeft(p, Apply(p, s, a)) < StepsLeft(p, s)
  {
    var t := Apply(p, s, a);
    hide Uncounteds, Pendings, InCall;
    if a.Recheck? && !(p.failFast && s.failed) {
      assert s.next !in s.tasks;
      hide PermitsOk, Dispatch;
      StartedCounts(s, t);
    } else {
      hide PermitsOk;
      SameTasks(s, t);
    }
  }

  lemma StartedCounts<O>(s: State<O>, t: State<O>)
    requires s.next !in s.tasks && t.tasks == s.tasks[s.next := Calling]
    ensures |t.tasks.Keys| <= |s.tasks.Keys| + 1 && |Uncounteds(t)| <= |Uncounteds(s)| + 1
    ensures |Pendings(t)| <= |Pendings(s)| + 1 && |InCall(t)| <= |InCall(s)| + 1
  {
    Started(s, t);
    hide Uncounteds, Pendings, InCall;
  }

  lemma SameTasks<O>(s: State<O>, t: State<O>)
    requires t.tasks == s.tasks
    ensures InCall(t) == InCall(s) && Pendings(t) == Pendings(s) && Uncounteds(t) == Uncounteds(s)
  {
  }

  lemma TaskAdvances<O>(p: Setup, s: State<O>, a: Step<O>, i: nat)
    requires Dispatch(p, s) && Enabled(p, s, a) && (a.Return? || a.Publish? || a.Tally? || a.Release?) && i == a.task
    ensures Apply(p, s, a).next <= p.total && StepsLeft(p, Apply(p, s, a)) < StepsLeft(p, s)
  {
    var t := Apply(p, s, a);
    assert t.next == s.next && t.dispatcher == s.dispatcher;
    if a.Release? {
      Gone(s, t, i);
    } else {
      assert t.tasks.Keys == s.tasks.Keys;
      hide Dispatch, Uncounteds, Pendings, InCall;
      ProgressCounts(s, t, i);
    }
  }

  /** Every step but a cancellation leaves fewer to come. */
  lemma StepAdvances<O>(p: Setup, s: State<O>, a: Step<O>)
    requires Inv(p, s) && Enabled(p, s, a) && !a.Cancel?
    ensures s.next <= p.total && Apply(p, s, a).next <= p.total
    ensures StepsLeft(p, Apply(p, s, a)) < StepsLeft(p, s)
  {
    hide Apply, Enabled, StepsLeft, Slots, Stream, Tallies, FlagOk;
    if a.LoopTop? || a.Acquire? || a.Join? || a.Recheck? { DispatcherAdvances(p, s, a); }
    else { TaskAdvances(p, s, a, a.task); }
  }

  lemma StoredIsDone<O>(p: Setup, s: State<O>, i: nat)
    requires Dispatch(p, s) && Slots(s) && i in s.tasks
    ensures i < |s.results| && (s.tasks[i].Stored? ==> s.results[i].Done?)
  {
    assert SlotOk(s, i);
  }

  /** Until the batch has returned somebody can always go on: nobody waits for ever for a permit. */
  lemma NeverStuck<O>(p: Setup, steps: seq<Step<O>>) returns (a: Step<O>)
    requires Run(p, steps).dispatcher != Finished
    ensures Enabled(p, Run(p, steps), a) && !a.Cancel?
  {
    RunInv(p, steps);
    var s := Run(p, steps);
    hide Run, Slots, Stream, Tallies, FlagOk;
    if s.dispatcher == Looping {
      a := LoopTop;
    } else if s.dispatcher == Holding {
      a := Recheck;
    } else if s.dispatcher == Acquiring && s.permits < Permits(p) {
      a := Acquire;
    } else if s.tasks.Keys == {} {
      a := Join;
    } else {
      var i :| i in s.tasks.Keys;
      StoredIsDone(p, s, i);
      a := NextOf(s.tasks[i], i);
      assert |s.tasks.Keys| > 0;
    }
  }

  function NextOf<O>(task: Task<O>, i: nat): (a: Step<O>) {
    match task
    case Calling => Return(i, Failed(ItemError("", "", "", "")))
    case Called(_) => Publish(i)
    case Stored => Tally(i)
    case Counted => Release(i)
  }

  /** From wherever a run stands the batch returns, without any further cancellation, after a
      number of steps known beforehand. */
  lemma {:induction false} AlwaysReturns<O>(p: Setup, steps: seq<Step<O>>) returns (more: seq<Step<O>>)
    ensures Run(p, steps + more).dispatcher == Finished && Cancel !in more
    ensures Run(p, steps).next <= p.total && |more| <= StepsLeft(p, Run(p, steps))
    decreases if Run(p, steps).next <= p.total then StepsLeft(p, Run(p, steps)) else 0
  {
    RunInv(p, steps);
    hide Run, Apply, Enabled, StepsLeft, Slots, Stream, Tallies, FlagOk;
    if Run(p, steps).dispatcher == Finished {
      more := [];
      assert steps + more == steps;
    } else {
      var a := NeverStuck(p, steps);
      StepAdvances(p, Run(p, steps), a);
      RunOneMore(p, steps, a);
      var rest := AlwaysReturns(p, steps + [a]);
      more := [a] + rest;
      assert steps + more == steps + [a] + rest;
    }
  }

  /** Every one of these steps can be taken when its turn comes. */
  ghost predicate AllTaken<O>(p: Setup, steps: seq<Step<O>>) {
    forall k :: 0 <= k < |steps| ==> Taken(p, steps, k)
  }

  ghost predicate Taken<O>(p: Setup, steps: seq<Step<O>>, k: nat)
    requires k < |steps|
  {
    Enabled(p, Run(p, steps[..k]), steps[k])
  }

  /** However it is scheduled, a batch takes at most seven steps an item and four besides. */
  lemma {:induction false} StepsBounded<O>(p: Setup, steps: seq<Step<O>>)
    requires Cancel !in steps && AllTaken(p, steps)
    ensures Run(p, steps).next <= p.total && |steps| + StepsLeft(p, Run(p, steps)) <= 7 * p.total + 4
  {
    hide Run, Apply, Enabled, StepsLeft, Slots, Stream, Tallies, FlagOk;
    RunInv(p, steps);
    if |steps| == 0 {
      assert Run(p, steps) == Start<O>(p) by { StartOf<O>(p); }
      LeftAtStart<O>(p);
    } else {
      var n := |steps| - 1;
      assert AllTaken(p, steps[..n]) by {
        forall k | 0 <= k < n ensures Taken(p, steps[..n], k) {
          assert Taken(p, steps, k) && steps[..n][..k] == steps[..k];
        }
      }
      StepsBounded(p, steps[..n]);
      assert Taken(p, steps, n);
      RunOneMore(p, steps[..n], steps[n]);
      assert steps == steps[..n] + [steps[n]];
      RunInv(p, steps[..n]);
      StepAdvances(p, Run(p, steps[..n]), steps[n]);
    }
  }

  lemma StartOf<O>(p: Setup)
    ensures Run(p, []) == Start<O>(p)
  {
  }

  lemma LeftAtStart<O>(p: Setup)
    ensures StepsLeft(p, Start<O>(p)) == 7 * p.total + 4
  {
    var s := Start<O>(p);
    assert InCall(s) == {} && Pendings(s) == {} && Uncounteds(s) == {};
  }
}
