/**
 The bounded parallel batch: a dispatcher that starts items in order while a
 semaphore has room, and one task per started item that calls the operation, stores
 the result in its own slot, counts and streams it, and gives its permit back.
 Any interleaving of dispatcher, tasks and cancellation is a run.
 */
module Batch {
  import opened Prelude

  /** An error as it is shown to the caller. */
  datatype ItemError = ItemError(kind: string, code: string, message: string, action: string)

  datatype Outcome<O> = Succeeded(output: O) | Failed(error: ItemError)

  datatype Item<O> = Skipped(index: nat) | Done(index: nat, outcome: Outcome<O>)

  /** Where the dispatcher stands: at the top of its loop, waiting for a permit, holding one,
      waiting for its tasks, or gone. */
  datatype Dispatcher = Looping | Acquiring | Holding | Draining | Finished

  /** Where a task stands, until it has given its permit back. */
  datatype Task<O> = Calling | Called(outcome: Outcome<O>) | Stored | Counted

  /** The parameters of one batch; concurrency is at least one. */
  datatype Setup = Setup(total: nat, concurrency: int, defaultConcurrency: int, failFast: bool)

  function Permits(p: Setup): (r: nat)
    ensures r >= 1
  {
    var c := if p.concurrency <= 0 then p.defaultConcurrency else p.concurrency;
    if c < 1 then 1 else c
  }

  /** The variables of the run; outcomes and sunkAt are history: what each call returned, and
      where in the stream each item went. */
  datatype State<O> = State(dispatcher: Dispatcher, next: nat, permits: nat, failed: bool, cancelled: bool,
                            tasks: map<nat, Task<O>>,
                            results: seq<Item<O>>, succeeded: nat, failedCount: nat, sunk: seq<Item<O>>,
                            outcomes: map<nat, Outcome<O>>, sunkAt: map<nat, nat>)

  function Start<O>(p: Setup): (s: State<O>) {
    State(Looping, 0, 0, false, false, map[], seq(p.total, (i: nat) => Skipped(i)), 0, 0, [], map[], map[])
  }

  datatype Step<O> = Cancel | LoopTop | Acquire | Recheck | Join
    | Return(task: nat, outcome: Outcome<O>) | Publish(task: nat) | Tally(task: nat) | Release(task: nat)

  predicate Enabled<O>(p: Setup, s: State<O>, a: Step<O>) {
    match a
    case Cancel => true
    case LoopTop => s.dispatcher == Looping
    case Acquire => s.dispatcher == Acquiring && s.permits < Permits(p)
    case Recheck => s.dispatcher == Holding
    case Join => s.dispatcher == Draining && s.tasks.Keys == {}
    case Return(i, _) => i in s.tasks && s.tasks[i].Calling?
    case Publish(i) => i in s.tasks && s.tasks[i].Called? && i < |s.results|
    case Tally(i) => i in s.tasks && s.tasks[i].Stored? && i < |s.results| && s.results[i].Done?
    case Release(i) => i in s.tasks && s.tasks[i].Counted? && s.permits > 0
  }

  function Apply<O>(p: Setup, s: State<O>, a: Step<O>): (t: State<O>)
    requires Enabled(p, s, a)
  {
    match a
    case Cancel => s.(cancelled := true)
    case LoopTop =>
      if s.next >= p.total || s.cancelled || (p.failFast && s.failed) then s.(dispatcher := Draining)
      else s.(dispatcher := Acquiring)
    case Acquire => s.(dispatcher := Holding, permits := s.permits + 1)
    case Recheck =>
      if p.failFast && s.failed then s.(dispatcher := Draining, permits := if s.permits > 0 then s.permits - 1 else 0)
      else s.(dispatcher := Looping, tasks := s.tasks[s.next := Calling], next := s.next + 1)
    case Join => s.(dispatcher := Finished)
    case Return(i, o) => s.(tasks := s.tasks[i := Called(o)], outcomes := s.outcomes[i := o])
    case Publish(i) =>
      s.(tasks := s.tasks[i := Stored], results := s.results[i := Done(i, s.tasks[i].outcome)],
         failed := s.failed || (p.failFast && s.tasks[i].outcome.Failed?))
    case Tally(i) =>
      s.(tasks := s.tasks[i := Counted], sunk := s.sunk + [s.results[i]], sunkAt := s.sunkAt[i := |s.sunk|],
         succeeded := s.succeeded + (if s.results[i].outcome.Succeeded? then 1 else 0),
         failedCount := s.failedCount + (if s.results[i].outcome.Failed? then 1 else 0))
    case Release(i) => s.(tasks := s.tasks - {i}, permits := s.permits - 1)
  }

  // ---------------------------------------------------------------- the invariant

  /** Every permit is held by a task, or by the dispatcher about to start one. */
  ghost predicate PermitsOk<O>(p: Setup, s: State<O>) {
    s.permits == |s.tasks| + (if s.dispatcher == Holding then 1 else 0) && s.permits <= Permits(p)
  }

  /** The items started are the first ones; the loop stops early only for a reason. */
  ghost predicate Dispatch<O>(p: Setup, s: State<O>) {
    && s.next <= p.total == |s.results| && (s.dispatcher.Acquiring? || s.dispatcher.Holding? ==> s.next < p.total)
    && (s.dispatcher.Draining? || s.dispatcher.Finished? ==>
      s.next == p.total || s.cancelled || (p.failFast && s.failed))
    && (s.dispatcher.Finished? ==> s.tasks.Keys == {})
    && forall i <- s.tasks :: i < s.next
  }

  predicate Pending<O>(s: State<O>, i: nat) { i in s.tasks && (s.tasks[i].Calling? || s.tasks[i].Called?) }

  predicate Uncounted<O>(s: State<O>, i: nat) { i in s.tasks && !s.tasks[i].Counted? }

  /** A slot is untouched until its own task stores what its own call returned. */
  ghost predicate SlotOk<O>(s: State<O>, i: nat)
    requires i < |s.results|
  {
    && (i >= s.next || Pending(s, i) ==> s.results[i] == Skipped(i))
    && (i < s.next && !Pending(s, i) ==> i in s.outcomes && s.results[i] == Done(i, s.outcomes[i]))
    && (i in s.tasks && s.tasks[i].Called? ==> i in s.outcomes && s.outcomes[i] == s.tasks[i].outcome)
    && (i in s.sunkAt <==> i < s.next && !Uncounted(s, i))
  }

  ghost predicate Slots<O>(s: State<O>) { forall i :: 0 <= i < |s.results| ==> SlotOk(s, i) }

  /** The stream and the table of positions are inverse to each other. */
  ghost predicate Stream<O>(s: State<O>) {
    && (forall i <- s.sunkAt ::
          s.sunkAt[i] < |s.sunk| && s.sunk[s.sunkAt[i]].index == i && i < |s.results|
          && s.sunk[s.sunkAt[i]] == s.results[i])
    && (forall k :: 0 <= k < |s.sunk| ==> s.sunk[k].index in s.sunkAt && s.sunkAt[s.sunk[k].index] == k)
  }

  /** The given items that succeeded, and those that failed. */
  ghost function Won<O>(items: set<nat>, results: seq<Item<O>>): (r: set<nat>) {
    set i | i in items && i < |results| && results[i].Done? && results[i].outcome.Succeeded?
  }

  ghost function Lost<O>(items: set<nat>, results: seq<Item<O>>): (r: set<nat>) {
    set i | i in items && i < |results| && results[i].Done? && results[i].outcome.Failed?
  }

  ghost predicate Tallies<O>(s: State<O>) {
    s.succeeded == |Won(s.sunkAt.Keys, s.results)| && s.failedCount == |Lost(s.sunkAt.Keys, s.results)|
  }

  /** The fail-fast flag is up exactly when a failure has been stored. */
  ghost predicate FlagOk<O>(p: Setup, s: State<O>) {
    s.failed <==> p.failFast && exists i :: 0 <= i < |s.results| && s.results[i].Done? && s.results[i].outcome.Failed?
  }

  ghost predicate Inv<O>(p: Setup, s: State<O>) {
    PermitsOk(p, s) && Dispatch(p, s) && Slots(s) && Stream(s) && Tallies(s) && FlagOk(p, s)
  }

  // ---------------------------------------------------------------- every step keeps it

  lemma StartInv<O>(p: Setup)
    ensures Inv(p, Start<O>(p))
  {
    var s := Start<O>(p);
    assert Won(s.sunkAt.Keys, s.results) == {} && Lost(s.sunkAt.Keys, s.results) == {};
  }

  /** Steps of the dispatcher that start nothing, and cancellation. */
  lemma DispatchStep<O>(p: Setup, s: State<O>, a: Step<O>)
    requires Inv(p, s) && Enabled(p, s, a)
    requires a.Cancel? || a.LoopTop? || a.Acquire? || a.Join? || (a.Recheck? && p.failFast && s.failed)
    ensures Inv(p, Apply(p, s, a))
  {
    hide Tallies, Stream, SlotOk, FlagOk, Slots;
    var t := Apply(p, s, a);
    DispatchOnly(p, s, a);
    hide Apply, PermitsOk, Dispatch;
    SameSlots(s, t);
    Untouched(p, s, t);
  }

  lemma DispatchOnly<O>(p: Setup, s: State<O>, a: Step<O>)
    requires PermitsOk(p, s) && Dispatch(p, s) && Enabled(p, s, a)
    requires a.Cancel? || a.LoopTop? || a.Acquire? || a.Join? || (a.Recheck? && p.failFast && s.failed)
    ensures var t := Apply(p, s, a);
      && PermitsOk(p, t) && Dispatch(p, t) && t.tasks == s.tasks && t.results == s.results && t.next == s.next
      && t.outcomes == s.outcomes && t.sunkAt == s.sunkAt && t.sunk == s.sunk && t.failed == s.failed
      && t.succeeded == s.succeeded && t.failedCount == s.failedCount
  {
  }

  lemma SameSlots<O>(s: State<O>, t: State<O>)
    requires Slots(s) && t.tasks == s.tasks && t.results == s.results && t.next == s.next && t.outcomes == s.outcomes
      && t.sunkAt == s.sunkAt
    ensures Slots(t)
  {
    forall i | 0 <= i < |t.results| ensures SlotOk(t, i) { assert SlotOk(s, i); }
  }

  lemma Untouched<O>(p: Setup, s: State<O>, t: State<O>)
    requires t.results == s.results && t.sunkAt == s.sunkAt && t.sunk == s.sunk && t.failed == s.failed
    requires t.succeeded == s.succeeded && t.failedCount == s.failedCount
    ensures Stream(s) ==> Stream(t)
    ensures Tallies(s) ==> Tallies(t)
    ensures FlagOk(p, s) ==> FlagOk(p, t)
  {
  }

  lemma SpawnStep<O>(p: Setup, s: State<O>)
    requires Inv(p, s) && s.dispatcher == Holding && !(p.failFast && s.failed)
    ensures Inv(p, Apply(p, s, Recheck))
  {
    hide Tallies, Stream, FlagOk;
    var t := Apply(p, s, Recheck);
    MapWith(s.tasks, s.next, Calling);
    Untouched(p, s, t);
    forall i | 0 <= i < |t.results| ensures SlotOk(t, i) { assert SlotOk(s, i); }
  }

  lemma ReturnStep<O>(p: Setup, s: State<O>, i: nat, o: Outcome<O>)
    requires Inv(p, s) && Enabled(p, s, Return(i, o))
    ensures Inv(p, Apply(p, s, Return(i, o)))
  {
    hide Tallies, Stream, FlagOk;
    var t := Apply(p, s, Return(i, o));
    MapWith(s.tasks, i, Called(o));
    Untouched(p, s, t);
    forall k | 0 <= k < |t.results| ensures SlotOk(t, k) { assert SlotOk(s, k); }
  }

  lemma PublishStep<O>(p: Setup, s: State<O>, i: nat)
    requires Inv(p, s) && Enabled(p, s, Publish(i))
    ensures Inv(p, Apply(p, s, Publish(i)))
  {
    var t := Apply(p, s, Publish(i));
    MapWith(s.tasks, i, Stored);
    assert SlotOk(s, i);
    assert i !in s.sunkAt;
    StoreUncounted(s.sunkAt.Keys, s.results, i, t.results[i]);
    PublishRest(p, s, t, i);
  }

  lemma StoreUncounted<O>(items: set<nat>, results: seq<Item<O>>, i: nat, x: Item<O>)
    requires i !in items && i < |results|
    ensures Won(items, results[i := x]) == Won(items, results) && Lost(items, results[i := x]) == Lost(items, results)
  {
  }

  lemma PublishRest<O>(p: Setup, s: State<O>, t: State<O>, i: nat)
    requires Inv(p, s) && Enabled(p, s, Publish(i)) && t == Apply(p, s, Publish(i)) && i !in s.sunkAt
    ensures Slots(t) && Stream(t) && FlagOk(p, t)
  {
    hide Tallies, PermitsOk;
    forall k | 0 <= k < |t.results| ensures SlotOk(t, k) { assert SlotOk(s, k) && SlotOk(s, i); }
    if t.failed && !s.failed { assert t.results[i].Done? && t.results[i].outcome.Failed?; }
    if s.failed {
      var k :| 0 <= k < |s.results| && s.results[k].Done? && s.results[k].outcome.Failed?;
      assert SlotOk(s, i) && t.results[k] == s.results[k];
    }
    if p.failFast && !t.failed {
      forall k | 0 <= k < |t.results| && t.results[k].Done? ensures !t.results[k].outcome.Failed? {
        assert k != i ==> t.results[k] == s.results[k];
      }
    }
  }

  lemma TallyStep<O>(p: Setup, s: State<O>, i: nat)
    requires Inv(p, s) && Enabled(p, s, Tally(i))
    ensures Inv(p, Apply(p, s, Tally(i)))
  {
    hide Stream, FlagOk;
    var t := Apply(p, s, Tally(i));
    MapWith(s.tasks, i, Counted);
    assert SlotOk(s, i) && i !in s.sunkAt;
    forall k | 0 <= k < |t.results| ensures SlotOk(t, k) { assert SlotOk(s, k); }
    TallyCounts(s.sunkAt.Keys, s.results, i);
    assert t.sunkAt.Keys == s.sunkAt.Keys + {i};
    TallyStream(p, s, t, i);
  }

  lemma TallyCounts<O>(items: set<nat>, results: seq<Item<O>>, i: nat)
    requires i !in items && i < |results| && results[i].Done?
    ensures |Won(items + {i}, results)| == |Won(items, results)| + if results[i].outcome.Succeeded? then 1 else 0
    ensures |Lost(items + {i}, results)| == |Lost(items, results)| + if results[i].outcome.Failed? then 1 else 0
  {
    if results[i].outcome.Succeeded? {
      assert Won(items + {i}, results) == Won(items, results) + {i};
      assert Lost(items + {i}, results) == Lost(items, results);
    } else {
      assert Won(items + {i}, results) == Won(items, results);
      assert Lost(items + {i}, results) == Lost(items, results) + {i};
    }
  }

  lemma TallyStream<O>(p: Setup, s: State<O>, t: State<O>, i: nat)
    requires Stream(s) && FlagOk(p, s) && i !in s.sunkAt && i < |s.results| && s.results[i].index == i
    requires t.results == s.results && t.sunk == s.sunk + [s.results[i]] && t.sunkAt == s.sunkAt[i := |s.sunk|]
      && t.failed == s.failed
    ensures Stream(t) && FlagOk(p, t)
  {
    forall k | k in t.sunkAt
      ensures t.sunkAt[k] < |t.sunk| && t.sunk[t.sunkAt[k]].index == k
      ensures k < |t.results| && t.sunk[t.sunkAt[k]] == t.results[k]
    {
      if k != i { assert t.sunk[s.sunkAt[k]] == s.sunk[s.sunkAt[k]]; }
    }
  }

  lemma ReleaseStep<O>(p: Setup, s: State<O>, i: nat)
    requires Inv(p, s) && Enabled(p, s, Release(i))
    ensures Inv(p, Apply(p, s, Release(i)))
  {
    hide Tallies, Stream, FlagOk;
    var t := Apply(p, s, Release(i));
    MapWithout(s.tasks, i);
    Untouched(p, s, t);
    forall k | 0 <= k < |t.results| ensures SlotOk(t, k) { assert SlotOk(s, k); }
  }

  lemma StepInv<O>(p: Setup, s: State<O>, a: Step<O>)
    requires Inv(p, s) && Enabled(p, s, a)
    ensures Inv(p, Apply(p, s, a))
  {
    hide Inv, Apply;
    match a
    case Recheck => if p.failFast && s.failed { DispatchStep(p, s, a); } else { SpawnStep(p, s); }
    case Return(i, o) => ReturnStep(p, s, i, o);
    case Publish(i) => PublishStep(p, s, i);
    case Tally(i) => TallyStep(p, s, i);
    case Release(i) => ReleaseStep(p, s, i);
    case _ => DispatchStep(p, s, a);
  }

  /** A run: steps that cannot happen yet are passed over. */
  function Run<O>(p: Setup, steps: seq<Step<O>>): (s: State<O>) {
    if |steps| == 0 then Start(p) else
    var r := Run(p, steps[..|steps| - 1]);
    if Enabled(p, r, steps[|steps| - 1]) then Apply(p, r, steps[|steps| - 1]) else r
  }

  lemma {:induction false} RunInv<O>(p: Setup, steps: seq<Step<O>>)
    ensures Inv(p, Run(p, steps))
  {
    hide Inv, Apply, Enabled;
    if |steps| == 0 {
      StartInv<O>(p);
    } else {
      var r := Run(p, steps[..|steps| - 1]);
      RunInv(p, steps[..|steps| - 1]);
      if Enabled(p, r, steps[|steps| - 1]) { StepInv(p, r, steps[|steps| - 1]); }
    }
  }

  // ---------------------------------------------------------------- the guarantees

  /** The items whose operation is being called. */
  ghost function InCall<O>(s: State<O>): (r: set<nat>) { set i | i in s.tasks && s.tasks[i].Calling? }

  /** At every moment no more items run than the concurrency allows, and the items started so
      far are the first ones of the request. */
  lemma BoundedConcurrency<O>(p: Setup, steps: seq<Step<O>>)
    ensures var s := Run(p, steps);
      |InCall(s)| <= |s.tasks| <= Permits(p) && s.next <= p.total && forall i <- s.tasks :: i < s.next
  {
    RunInv(p, steps);
    var s := Run(p, steps);
    SubsetSize(InCall(s), s.tasks.Keys);
  }

  ghost function Winners<O>(results: seq<Item<O>>): (r: set<nat>) {
    set i | 0 <= i < |results| && results[i].Done? && results[i].outcome.Succeeded?
  }

  ghost function Losers<O>(results: seq<Item<O>>): (r: set<nat>) {
    set i | 0 <= i < |results| && results[i].Done? && results[i].outcome.Failed?
  }

  ghost function Omitted<O>(results: seq<Item<O>>): (r: set<nat>) { set i | 0 <= i < |results| && results[i].Skipped? }

  /** What a finished batch returns. */
  ghost predicate Complete<O>(p: Setup, s: State<O>) {
    && s.next <= p.total == |s.results|
    && (forall i :: 0 <= i < s.next ==> i in s.outcomes && s.results[i] == Done(i, s.outcomes[i]))
    && (forall i :: s.next <= i < p.total ==> s.results[i] == Skipped(i))
    && (s.next < p.total ==> s.cancelled || (p.failFast && Losers(s.results) != {}))
  }

  /** Every item that ran is streamed exactly once, as it stands in its slot, and no other. */
  ghost predicate StreamedOnce<O>(s: State<O>) {
    && |s.sunk| == s.next
    && (forall k :: 0 <= k < |s.sunk| ==>
      s.sunk[k].index < s.next <= |s.results| && s.sunk[k] == s.results[s.sunk[k].index])
    && (forall k, l :: 0 <= k < l < |s.sunk| ==> s.sunk[k].index != s.sunk[l].index)
  }

  /** However the run was scheduled, a batch that returns has run a prefix of its items, stored
      each result in its own slot, streamed each once, and counted all of them. */
  lemma BatchConserves<O>(p: Setup, steps: seq<Step<O>>)
    requires Run(p, steps).dispatcher == Finished
    ensures var s := Run(p, steps);
      && Complete(p, s) && StreamedOnce(s)
      && s.succeeded == |Winners(s.results)| && s.failedCount == |Losers(s.results)|
      && s.succeeded + s.failedCount + |Omitted(s.results)| == p.total
  {
    hide Run, Apply, Enabled;
    var s := Run(p, steps);
    RunInv(p, steps);
    AllDone(p, s);
    Counts(p, s);
    Streamed(p, s);
  }

  lemma AllDone<O>(p: Setup, s: State<O>)
    requires Inv(p, s) && s.dispatcher == Finished
    ensures Complete(p, s) && forall i :: 0 <= i < p.total ==> (i in s.sunkAt <==> i < s.next)
  {
    hide Stream, Tallies, PermitsOk;
    forall i | 0 <= i < p.total
      ensures i in s.sunkAt <==> i < s.next
      ensures i < s.next ==> i in s.outcomes && s.results[i] == Done(i, s.outcomes[i])
      ensures s.next <= i ==> s.results[i] == Skipped(i)
    {
      assert SlotOk(s, i);
    }
    if s.next < p.total && !s.cancelled {
      var i :| 0 <= i < |s.results| && s.results[i].Done? && s.results[i].outcome.Failed?;
      assert i in Losers(s.results);
    }
  }

  lemma Counts<O>(p: Setup, s: State<O>)
    requires Inv(p, s) && Complete(p, s) && forall i :: 0 <= i < p.total ==> (i in s.sunkAt <==> i < s.next)
    ensures s.succeeded == |Winners(s.results)| && s.failedCount == |Losers(s.results)|
    ensures s.succeeded + s.failedCount + |Omitted(s.results)| == p.total
  {
    hide Slots, PermitsOk, Dispatch, FlagOk, Stream;
    assert Won(s.sunkAt.Keys, s.results) == Winners(s.results) && Lost(s.sunkAt.Keys, s.results) == Losers(s.results);
    Partition(s.results);
  }

  lemma Partition<O>(results: seq<Item<O>>)
    ensures |Winners(results)| + |Losers(results)| + |Omitted(results)| == |results|
  {
    var all := Winners(results) + Losers(results) + Omitted(results);
    assert forall i :: i in all <==> 0 <= i < |results|;
    Below(all, |results|);
    assert |Winners(results) + Losers(results)| == |Winners(results)| + |Losers(results)|;
    assert |all| == |Winners(results) + Losers(results)| + |Omitted(results)|;
  }

  lemma {:induction false} Below(a: set<nat>, n: nat)
    requires forall i: nat :: i in a <==> i < n
    ensures |a| == n
  {
    if n > 0 { Below(a - {n - 1}, n - 1); } else { assert a == {}; }
  }

  lemma Streamed<O>(p: Setup, s: State<O>)
    requires Inv(p, s) && Complete(p, s) && forall i :: 0 <= i < p.total ==> (i in s.sunkAt <==> i < s.next)
    ensures StreamedOnce(s)
  {
    hide Slots, PermitsOk, FlagOk, Tallies;
    forall k | 0 <= k < |s.sunk| ensures s.sunk[k].index < s.next && s.sunk[k] == s.results[s.sunk[k].index] {
      assert s.sunkAt[s.sunk[k].index] == k;
    }
    Bijection(s.sunkAt, seq(|s.sunk|, k requires 0 <= k < |s.sunk| => s.sunk[k].index), s.next);
  }

  /** A table on the first n numbers with a list as its inverse has n entries in the list. */
  lemma Bijection(at: map<nat, nat>, back: seq<nat>, n: nat)
    requires forall i :: i in at <==> 0 <= i < n
    requires forall i <- at :: at[i] < |back| && back[at[i]] == i
    requires forall k :: 0 <= k < |back| ==> back[k] in at && at[back[k]] == k
    ensures |back| == n
  {
    Below(at.Keys, n);
    Image(at, at.Keys);
    var image := set i | i in at.Keys :: at[i];
    forall k: nat | k < |back| ensures k in image { assert at[back[k]] == k; }
    Below(image, |back|);
  }

  lemma {:induction false} Image(at: map<nat, nat>, dom: set<nat>)
    requires dom <= at.Keys && forall i, j :: i in at && j in at && i != j ==> at[i] != at[j]
    ensures |set i | i in dom :: at[i]| == |dom|
  {
    if dom != {} {
      var x :| x in dom;
      Image(at, dom - {x});
      assert (set i | i in dom :: at[i]) == (set i | i in dom - {x} :: at[i]) + {at[x]};
    }
  }
}
