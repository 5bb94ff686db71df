/**
 The idempotency cache in clock time: how long a success is replayed, told from what was
 called and when, without looking at what the cache has stored about it.
 */
module IdempotencyClock {
  import opened Prelude
  import opened Idempotency
  import opened IdempotencyRuns

  /** A run of a key's work that succeeded: which run, when, and with what. */
  datatype Done = Done(key: Key, data: Data, at: Time)

  /** A state, and for every run of work that has succeeded so far, when it did. */
  datatype Timed = Timed(state: State, successes: map<nat, Done>)

  /** The history after some events, those that cannot happen being passed over; runs of work
      are numbered in the order they start. */
  ghost function Timeline(max: int, ttl: nat, start: Time, es: seq<Event>): (t: Timed) {
    if |es| == 0 then Timed(Init(max, ttl, start), map[]) else
    var u := Timeline(max, ttl, start, es[..|es| - 1]);
    if Enabled(u.state, es[|es| - 1]) then Then(u, es[|es| - 1]) else u
  }

  ghost function Then(u: Timed, e: Event): (t: Timed)
    requires Enabled(u.state, e)
  {
    Timed(Apply(u.state, e),
          if e.Finish? && e.ok
          then u.successes[e.entry := Done(u.state.core.entries[e.entry].key, e.data, u.state.now)]
          else u.successes)
  }

  /** What the cache has stored agrees with what happened. */
  predicate Agrees(ttl: nat, t: Timed) {
    && t.state.core.ttl == ttl
    && (forall i <- t.successes :: i < |t.state.core.entries|)
    && forall i :: 0 <= i < |t.state.core.entries| ==>
      var e := t.state.core.entries[i];
      && (i in t.successes <==> e.outcome.Success?)
      && (i in t.successes ==> t.successes[i] == Done(e.key, e.outcome.data, e.outcome.expiry - ttl))
  }

  lemma StepAgrees(ttl: nat, u: Timed, e: Event)
    requires IdempotencyRuns.Inv(u.state) && Agrees(ttl, u) && Enabled(u.state, e)
    ensures Agrees(ttl, Then(u, e))
  {
    hide IdempotencyRuns.Inv;
    if e.Do? {
      BeginKeeps(u.state.core, e.key, u.state.now);
      DoKeeps(u.state, e);
    } else if e.Finish? {
      PublishStores(u.state.core, e.entry, e.ok, e.data, u.state.now);
    }
  }

  lemma DoKeeps(s: State, e: Event)
    requires Enabled(s, e) && e.Do?
    ensures Apply(s, e).core == Begin(s.core, e.key, s.now).0
  {
    hide Begin;
  }

  /** The first critical section keeps every run and may start one more. */
  lemma BeginKeeps(c: Core, key: Key, now: Time)
    requires CoreOk(c)
    ensures var d := Begin(c, key, now).0;
      d.ttl == c.ttl && (d.entries == c.entries || d.entries == c.entries + [Entry(key, Pending, false)])
  {
    hide CoreOk, Without;
    if !HitsAt(c, key, now) && !WaitsAt(c, key) {
      var d := Cleared(c, key);
      RegisterOk(d, key);
      EvictKeeps(Register(d, key));
    }
  }

  lemma {:induction false} EvictKeeps(c: Core)
    requires CoreOk(c)
    ensures Evict(c).entries == c.entries && Evict(c).ttl == c.ttl
    decreases |c.lru|
  {
    hide CoreOk;
    if |c.lru| > c.max {
      var back := c.lru[|c.lru| - 1];
      RemoveOk(c, back);
      EvictKeeps(Remove(c, back));
    }
  }

  /** The second one stores the outcome: a success counts for exactly the lifetime from now. */
  lemma PublishStores(c: Core, i: nat, ok: bool, data: Data, now: Time)
    requires i < |c.entries|
    ensures var d := Publish(c, i, ok, data, now);
      && d.ttl == c.ttl && |d.entries| == |c.entries|
      && (forall k :: 0 <= k < |c.entries| && k != i ==> d.entries[k] == c.entries[k])
      && d.entries[i] == c.entries[i].(outcome := if ok then Success(data, now + c.ttl) else Failure(data))
  {
  }

  lemma {:induction false} TimelineInv(max: int, ttl: nat, start: Time, es: seq<Event>)
    ensures var t := Timeline(max, ttl, start, es);
      IdempotencyRuns.Inv(t.state) && Agrees(ttl, t) && t.state.core.max == if max < 1 then 1024 else max
    decreases |es|
  {
    hide IdempotencyRuns.Inv, Apply, Enabled, Agrees;
    if |es| == 0 {
      InitInv(max, ttl, start);
      StartAgrees(max, ttl, start);
    } else {
      var u := Timeline(max, ttl, start, es[..|es| - 1]);
      TimelineInv(max, ttl, start, es[..|es| - 1]);
      if Enabled(u.state, es[|es| - 1]) {
        StepInv(u.state, es[|es| - 1]);
        StepAgrees(ttl, u, es[|es| - 1]);
        MaxKept(u.state, es[|es| - 1]);
      }
    }
  }

  lemma StartAgrees(max: int, ttl: nat, start: Time)
    ensures Agrees(ttl, Timed(Init(max, ttl, start), map[]))
  {
  }

  lemma MaxKept(s: State, e: Event)
    requires Enabled(s, e)
    ensures Apply(s, e).core.max == s.core.max
  {
    if e.Do? { BeginMax(s.core, e.key, s.now); }
  }

  lemma BeginMax(c: Core, key: Key, now: Time)
    requires CoreOk(c)
    ensures Begin(c, key, now).0.max == c.max
  {
    hide CoreOk, Without;
    if !HitsAt(c, key, now) && !WaitsAt(c, key) {
      var d := Cleared(c, key);
      RegisterOk(d, key);
      EvictMax(Register(d, key));
    }
  }

  lemma {:induction false} EvictMax(c: Core)
    requires CoreOk(c)
    ensures Evict(c).max == c.max
    decreases |c.lru|
  {
    hide CoreOk;
    if |c.lru| > c.max {
      var back := c.lru[|c.lru| - 1];
      RemoveOk(c, back);
      EvictMax(Remove(c, back));
    }
  }

  // ---------------------------------------------------------------- what a caller can rely on

  /** Within the lifetime: if the work for a key succeeded at some time and starts again less than
      the lifetime later, at least max other keys were used since that run was last used. */
  lemma DoneOnceInLifetime(max: int, ttl: nat, start: Time, es: seq<Event>, t: Timed, i: nat, caller: nat)
    requires t == Timeline(max, ttl, start, es) && i in t.successes && t.state.now < t.successes[i].at + ttl
    requires Enabled(t.state, Do(caller, t.successes[i].key))
    requires Begin(t.state.core, t.successes[i].key, t.state.now).1.RunIt?
    ensures i < |t.state.touched|
    ensures |Since(t.state.touches, t.state.touched[i], t.successes[i].key)| >= if max < 1 then 1024 else max
  {
    hide Timeline, Since;
    TimelineInv(max, ttl, start, es);
    assert i < |t.state.core.entries|;
    assert Accounted(t.state, i);
  }

  /** While a run is unfinished the same holds. */
  lemma NotTwiceAtOnce(max: int, ttl: nat, start: Time, es: seq<Event>, t: Timed, i: nat, caller: nat, key: Key)
    requires t == Timeline(max, ttl, start, es) && i < |t.state.core.entries|
    requires t.state.core.entries[i].key == key && t.state.core.entries[i].outcome.Pending?
    requires Enabled(t.state, Do(caller, key)) && Begin(t.state.core, key, t.state.now).1.RunIt?
    ensures i < |t.state.touched|
    ensures |Since(t.state.touches, t.state.touched[i], key)| >= if max < 1 then 1024 else max
  {
    hide Timeline, Since;
    TimelineInv(max, ttl, start, es);
    assert Accounted(t.state, i);
  }

  /** Only within the lifetime: what the cache replays is what a run of that key succeeded with,
      less than the lifetime ago. */
  lemma ReplayedInLifetime(max: int, ttl: nat, start: Time, es: seq<Event>, t: Timed, caller: nat, key: Key)
    requires t == Timeline(max, ttl, start, es) && Enabled(t.state, Do(caller, key))
    requires Begin(t.state.core, key, t.state.now).1.Hit?
    ensures exists i ::
      i in t.successes && t.successes[i].key == key && t.state.now < t.successes[i].at + ttl &&
      Begin(t.state.core, key, t.state.now).1 == Hit(t.successes[i].data)
  {
    hide Timeline, IdempotencyRuns.Inv;
    TimelineInv(max, ttl, start, es);
    var i := t.state.core.byKey[key];
    assert t.state.core.entries[i].key == key;
    assert i in t.successes;
  }

  /** A key whose work succeeded less than the lifetime ago, and which the cache still holds, is
      replayed at once as soon as its waiters have been released. */
  lemma HeldIsReplayed(max: int, ttl: nat, start: Time, es: seq<Event>, t: Timed, i: nat, caller: nat)
    requires t == Timeline(max, ttl, start, es) && i in t.successes && t.state.now < t.successes[i].at + ttl
    requires Enabled(t.state, Do(caller, t.successes[i].key)) && Indexed(t.state.core, i)
    ensures i < |t.state.core.entries|
    ensures Begin(t.state.core, t.successes[i].key, t.state.now).1 ==
      if t.state.core.entries[i].closed then Hit(t.successes[i].data) else Wait(i)
  {
    hide Timeline, IdempotencyRuns.Inv;
    TimelineInv(max, ttl, start, es);
  }

  /** Whoever waits for a run of work gets what it came to: once it has ended, its waiters can be
      released, and each of them wakes with the data of a success, and with none of a failure. */
  lemma WaiterIsServed(s: State, caller: nat, ok: bool, data: Data)
    requires Reachable(s) && caller in s.waiting
    ensures var i, c := s.waiting[caller].entry, s.core;
      && i < |c.entries| && c.entries[i].key == s.waiting[caller].key
      && (c.entries[i].outcome.Pending? ==> Enabled(s, Finish(i, ok, data)))
      && (!c.entries[i].outcome.Pending? && !c.entries[i].closed ==> Enabled(s, Release(i)))
      && (c.entries[i].closed ==> Enabled(s, Wake(caller)))
    ensures var w := s.waiting[caller];
      Enabled(s, Wake(caller)) ==>
        var t, o := Apply(s, Wake(caller)), s.core.entries[w.entry].outcome;
        && caller !in t.waiting && t.core == s.core
        && (o.Success? ==> t.replies == s.replies + [Reply(w.key, o.data, w.entry)])
        && (!o.Success? ==> t.replies == s.replies)
  {
    ReachableInv(s);
  }

  /** The run ends as its work did, whatever else has happened to its key meanwhile. */
  lemma FinishRecords(s: State, i: nat, ok: bool, data: Data)
    requires Reachable(s) && Enabled(s, Finish(i, ok, data))
    ensures var o := Apply(s, Finish(i, ok, data)).core.entries;
      |o| == |s.core.entries| && o[i].key == s.core.entries[i].key
    ensures var t := Apply(s, Finish(i, ok, data));
      && (ok ==> t.core.entries[i].outcome.Success? && t.core.entries[i].outcome.data == data)
      && (!ok ==> t.core.entries[i].outcome == Failure(data))
      && Enabled(t, Release(i)) && Apply(t, Release(i)).core.entries[i].closed && t.waiting == s.waiting
  {
    ReachableInv(s);
  }
}
