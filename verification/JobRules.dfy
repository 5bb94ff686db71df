/**
 What each step of the job manager writes, that its stamps follow the clock, that its
 queue keeps to its size, and that a restart loses nothing.
 */
module JobRules {
  import opened Prelude
  import opened JobStore
  import opened JobManager
  import opened JobSafety

  // ---------------------------------------------------------------- what a step writes

  /** Only this record changed. */
  ghost predicate OnlyAt(before: Jobs, after: Jobs, id: Id, j: Job) { after == before[id := j] }

  /** A submit stores the job as given, queued and stamped; then it is queued if there is room,
      and otherwise, and only then, leaves nothing behind. */
  lemma SubmitExactly(s: State, id: Id, op: string, request: string)
    requires s.up && id !in s.origin
    ensures Enabled(s, Submit(id, op, request))
    ensures var t := Apply(s, Submit(id, op, request));
      && OnlyAt(s.store, t.store, id, Job(id, op, Queued, s.clock, None, None, None, Some(request), None, None))
      && t.queue == s.queue && t.up
      && (Enabled(t, Enqueue(id)) <==> |t.queue| < t.capacity)
      && (Enabled(t, RejectBusy(id)) <==> |t.queue| >= t.capacity)
  {
  }

  lemma SubmitDecides(s: State, id: Id)
    ensures Enabled(s, Enqueue(id)) ==>
      Apply(s, Enqueue(id)).queue == s.queue + [id] && Apply(s, Enqueue(id)).store == s.store
    ensures Enabled(s, RejectBusy(id)) ==>
      var t := Apply(s, RejectBusy(id)); t.queue == s.queue && t.store == map i | i in s.store && i != id :: s.store[i]
  {
  }

  /** A cancel reads a record that has not ended and, whenever it gets to it, writes that record
      back canceled: stamped, to be kept for the retention time, and without its payload. */
  lemma CancelExactly(s: State, k: nat)
    requires s.up && k in s.cancels
    ensures Enabled(s, CancelSave(k))
    ensures var j, t := s.cancels[k], Apply(s, CancelSave(k));
      && OnlyAt(s.store, t.store, j.id, Job(j.id, j.op, Canceled, j.submitted, j.started, Some(s.clock),
                                            Some(s.clock + s.ttl), None, j.result, j.error))
      && t.cancels == (map c | c in s.cancels && c != k :: s.cancels[c]) && t.workers == s.workers
  {
  }

  lemma CancelReads(s: State, k: nat, id: Id)
    requires s.up && k !in s.cancels
    ensures Enabled(s, CancelGet(k, id)) <==>
      id in s.store && (s.store[id].status == Queued || s.store[id].status == Running)
    ensures Enabled(s, CancelGet(k, id)) ==>
      var t := Apply(s, CancelGet(k, id)); t.store == s.store && t.cancels == s.cancels[k := s.store[id]]
  {
  }

  /** A worker takes the head of the queue and runs it only if it is still there and queued. */
  lemma PickExactly(s: State, w: nat)
    requires s.up && w < |s.workers|
    ensures Enabled(s, Pick(w)) <==> s.workers[w] == Idle && |s.queue| > 0
    ensures Enabled(s, Pick(w)) ==>
      var t := Apply(s, Pick(w));
      [s.queue[0]] + t.queue == s.queue && t.workers[w] == Picked(s.queue[0]) && t.store == s.store
    ensures s.workers[w].Picked? ==>
      var id, t := s.workers[w].id, Apply(s, RunGet(w));
      && t.store == s.store
      && (id in s.store && s.store[id].status == Queued ==> t.workers[w] == Copied(s.store[id]))
      && (!(id in s.store && s.store[id].status == Queued) ==> t.workers[w] == Idle)
  {
  }

  /** Recovered jobs join the queue in their order, as soon as there is room. */
  lemma RequeueExactly(s: State)
    requires s.up && |s.backlog| > 0
    ensures Enabled(s, Requeue) <==> |s.queue| < s.capacity
    ensures Enabled(s, Requeue) ==>
      var t := Apply(s, Requeue);
      [s.backlog[0]] + t.backlog == s.backlog && t.queue == s.queue + [s.backlog[0]] && t.store == s.store
  {
  }

  /** Starting writes the record running and stamped, and what it wrote is what is executed. */
  lemma StartExactly(s: State, w: nat)
    requires s.up && w < |s.workers| && s.workers[w].Copied?
    ensures var j, t := s.workers[w].job, Apply(s, RunStart(w));
      var r := Job(j.id, j.op, Running, j.submitted, Some(s.clock), j.finished, j.expires, j.request, j.result,
                   j.error);
      OnlyAt(s.store, t.store, j.id, r) && t.workers[w] == Executing(r)
  {
  }

  /** An execution that ended well is to be recorded as succeeded with its output, and any other
      as failed with its error; either way stamped when it ended, kept for the retention time from
      then on, and without its payload. An interrupted one records nothing. */
  lemma OutcomeExactly(s: State, w: nat, ok: bool, output: string)
    requires s.up && w < |s.workers| && s.workers[w].Executing?
    ensures Enabled(s, Finish(w, ok, output)) && Enabled(s, Interrupted(w))
    ensures Apply(s, Interrupted(w)).store == s.store && Apply(s, Interrupted(w)).workers[w] == Idle
    ensures var j, t := s.workers[w].job, Apply(s, Finish(w, ok, output));
      && t.store == s.store && t.up
      && t.workers[w] == Finished(Job(
        j.id, j.op, if ok then Succeeded else Failed, j.submitted, j.started, Some(s.clock), Some(s.clock + s.ttl),
        None, if ok then Some(output) else j.result, if ok then j.error else Some(output)))
  {
  }

  /** Whatever it holds is what is stored, then or at any later time. */
  lemma SaveExactly(s: State, w: nat)
    requires s.up && w < |s.workers| && s.workers[w].Finished?
    ensures Enabled(s, RunSave(w))
    ensures var j, t := s.workers[w].job, Apply(s, RunSave(w));
      OnlyAt(s.store, t.store, j.id, j) && t.workers[w] == Idle && t.queue == s.queue
  {
  }

  // ---------------------------------------------------------------- restarts

  /** A process that goes down and comes up again, however the recovery lists them, keeps every
      record: those that had ended as they are, and those that had not queued again with their
      payload; and exactly these are listed to be run, each once. */
  lemma RestartLosesNothing(s: State, ids: seq<Id>)
    requires Reachable(s) && s.up
    ensures Enabled(s, Shutdown) && Apply(s, Shutdown).store == s.store
    ensures Enabled(Apply(s, Shutdown), Start(ids)) ==>
      var t := Apply(Apply(s, Shutdown), Start(ids));
      && t.up && t.store.Keys == s.store.Keys && t.clock == s.clock && t.backlog == ids && Distinct(ids)
      && (forall id <- s.store :: Terminal(s.store[id].status) ==> t.store[id] == s.store[id] && id !in ids)
      && (forall id <- s.store :: !Terminal(s.store[id].status) ==> Resumed(s.store[id], t.store[id]) && id in ids)
      && (forall id <- ids :: id in s.store)
  {
  }

  /** Queued, with everything else as it was. */
  predicate Resumed(before: Job, after: Job) { after.status == Queued && after.(status := before.status) == before }

  /** Some order of recovery always exists. */
  lemma {:induction false} CanRestart(m: Jobs) returns (ids: seq<Id>)
    ensures ListsPending(Recovered(m), ids)
  {
    ids := [];
    var todo := m.Keys;
    while todo != {}
      invariant todo <= m.Keys
      invariant forall id :: id in ids <==> id in m && id !in todo && !Terminal(m[id].status)
      invariant forall i, j :: 0 <= i < j < |ids| ==> ids[i] != ids[j]
      decreases |todo|
    {
      var id :| id in todo;
      todo := todo - {id};
      if !Terminal(m[id].status) { ids := ids + [id]; }
    }
  }

  // ---------------------------------------------------------------- the queue's size

  lemma {:induction false} RunBounded(s: State, es: seq<Event>)
    requires |s.queue| <= s.capacity && Run(s, es).Some?
    ensures |Run(s, es).value.queue| <= Run(s, es).value.capacity
    decreases |es|
  {
    hide Apply, Enabled;
    if |es| > 0 {
      StepBounded(s, es[0]);
      RunBounded(Apply(s, es[0]), es[1..]);
    }
  }

  lemma StepBounded(s: State, e: Event)
    requires |s.queue| <= s.capacity && Enabled(s, e)
    ensures |Apply(s, e).queue| <= Apply(s, e).capacity
  {
  }

  /** No more jobs wait in the queue than it was made for. */
  lemma QueueBounded(s: State)
    requires Reachable(s)
    ensures |s.queue| <= s.capacity
  {
    var capacity, ttl, workers, es :| Run(Init(capacity, ttl, workers), es) == Some(s);
    RunBounded(Init(capacity, ttl, workers), es);
  }

  // ---------------------------------------------------------------- the stamps

  /** Submitted, started and finished in this order, and none of it in the future. */
  predicate Stamped(j: Job, now: Time) {
    && j.submitted <= now
    && (j.started.Some? ==> j.submitted <= j.started.value <= now)
    && (j.finished.Some? ==> j.submitted <= j.finished.value <= now)
    && (j.started.Some? && j.finished.Some? ==> j.started.value <= j.finished.value)
  }

  predicate HeldStamped(wk: Worker, now: Time) {
    wk.Copied? || wk.Executing? || wk.Finished? ==> Stamped(wk.job, now)
  }

  predicate StampsOk(s: State) {
    && (forall id <- s.store :: Stamped(s.store[id], s.clock))
    && (forall k <- s.cancels :: Stamped(s.cancels[k], s.clock))
    && (forall w :: 0 <= w < |s.workers| ==> HeldStamped(s.workers[w], s.clock))
  }

  lemma EndedStamped(j: Job, st: Status, now: Time, ttl: nat)
    requires Stamped(j, now)
    ensures Stamped(Ended(j, st, now, ttl), now)
  {
  }

  lemma LaterStamped(j: Job, now: Time, later: Time)
    requires Stamped(j, now) && now <= later
    ensures Stamped(j, later)
  {
  }

  lemma TickStamps(s: State, now: Time)
    requires StampsOk(s) && Enabled(s, Tick(now))
    ensures StampsOk(Apply(s, Tick(now)))
  {
    hide Stamped;
    var t := Apply(s, Tick(now));
    forall id | id in t.store ensures Stamped(t.store[id], now) { LaterStamped(s.store[id], s.clock, now); }
    forall k | k in t.cancels ensures Stamped(t.cancels[k], now) { LaterStamped(s.cancels[k], s.clock, now); }
    forall w | 0 <= w < |t.workers| ensures HeldStamped(t.workers[w], now) {
      assert HeldStamped(s.workers[w], s.clock);
      var wk := s.workers[w];
      if wk.Copied? || wk.Executing? || wk.Finished? {
        LaterStamped(wk.job, s.clock, now);
      }
    }
  }

  lemma StartsStamps(s: State, ids: seq<Id>)
    requires StampsOk(s) && Enabled(s, Start(ids))
    ensures StampsOk(Apply(s, Start(ids)))
  {
    var t := Apply(s, Start(ids));
    forall id | id in t.store ensures Stamped(t.store[id], s.clock) { assert Stamped(s.store[id], s.clock); }
    hide Stamped, Recovered;
  }

  lemma SubmitStamps(s: State, id: Id, op: string, request: string)
    requires StampsOk(s) && Enabled(s, Submit(id, op, request))
    ensures StampsOk(Apply(s, Submit(id, op, request)))
  {
    assert Stamped(NewJob(id, op, request, s.clock), s.clock);
    hide Stamped, NewJob;
  }

  lemma CancelStamps(s: State, k: nat)
    requires StampsOk(s) && Enabled(s, CancelSave(k))
    ensures StampsOk(Apply(s, CancelSave(k)))
  {
    EndedStamped(s.cancels[k], Canceled, s.clock, s.ttl);
    hide Stamped, Ended;
  }

  lemma RemovalStamps(s: State, e: Event)
    requires StampsOk(s) && Enabled(s, e) && (e.RejectBusy? || e.Reap?)
    ensures StampsOk(Apply(s, e))
  {
    hide Stamped, Expired;
  }

  lemma ReadStamps(s: State, w: nat)
    requires StampsOk(s) && Enabled(s, RunGet(w))
    ensures StampsOk(Apply(s, RunGet(w)))
  {
    hide Stamped;
  }

  lemma StartStamps(s: State, w: nat)
    requires Inv(s) && StampsOk(s) && Enabled(s, RunStart(w))
    ensures StampsOk(Apply(s, RunStart(w)))
  {
    assert WorkerOk(s.workers[w], s.origin, s.ttl) && HeldStamped(s.workers[w], s.clock);
    RestartedStamped(s.workers[w].job, s.clock);
    hide Inv, Stamped, WorkerOk;
  }

  lemma FinishStamps(s: State, w: nat, ok: bool, output: string)
    requires StampsOk(s) && Enabled(s, Finish(w, ok, output))
    ensures StampsOk(Apply(s, Finish(w, ok, output)))
  {
    assert HeldStamped(s.workers[w], s.clock);
    EndedStamped(s.workers[w].job, if ok then Succeeded else Failed, s.clock, s.ttl);
    OutputStamped(Ended(s.workers[w].job, if ok then Succeeded else Failed, s.clock, s.ttl), output, s.clock);
    hide Stamped, Ended;
  }

  lemma OutputStamped(j: Job, output: string, now: Time)
    requires Stamped(j, now)
    ensures Stamped(j.(result := Some(output)), now) && Stamped(j.(error := Some(output)), now)
  {
  }

  lemma SaveStamps(s: State, w: nat)
    requires StampsOk(s) && Enabled(s, RunSave(w))
    ensures StampsOk(Apply(s, RunSave(w)))
  {
    assert HeldStamped(s.workers[w], s.clock);
    hide Stamped;
  }

  lemma RestartedStamped(j: Job, now: Time)
    requires Stamped(j, now) && j.finished == None
    ensures Stamped(j.(status := Running, started := Some(now)), now)
  {
  }

  lemma QuietSteps(s: State, e: Event)
    requires StampsOk(s) && Enabled(s, e)
    requires e.Shutdown? || e.Enqueue? || e.Requeue? || e.CancelGet? || e.Pick? || e.Interrupted?
    ensures StampsOk(Apply(s, e))
  {
    hide Stamped;
  }

  lemma StepStamps(s: State, e: Event)
    requires Inv(s) && StampsOk(s) && Enabled(s, e)
    ensures StampsOk(Apply(s, e))
  {
    hide Inv, StampsOk, Apply, Enabled;
    match e
    case Tick(now) => TickStamps(s, now);
    case RunGet(w) => ReadStamps(s, w);
    case RunStart(w) => StartStamps(s, w);
    case Finish(w, ok, output) => FinishStamps(s, w, ok, output);
    case RunSave(w) => SaveStamps(s, w);
    case Start(ids) => StartsStamps(s, ids);
    case Submit(id, op, request) => SubmitStamps(s, id, op, request);
    case CancelSave(k) => CancelStamps(s, k);
    case RejectBusy(_) => RemovalStamps(s, e);
    case Reap => RemovalStamps(s, e);
    case _ => QuietSteps(s, e);
  }

  lemma {:induction false} RunStamps(s: State, es: seq<Event>)
    requires Inv(s) && StampsOk(s) && Run(s, es).Some?
    ensures StampsOk(Run(s, es).value)
    decreases |es|
  {
    hide Inv, StampsOk, Apply, Enabled;
    if |es| > 0 {
      StepInv(s, es[0]);
      StepStamps(s, es[0]);
      RunStamps(Apply(s, es[0]), es[1..]);
    }
  }

  lemma ReachableStamps(s: State)
    requires Reachable(s)
    ensures StampsOk(s)
  {
    var capacity, ttl, workers, es :| Run(Init(capacity, ttl, workers), es) == Some(s);
    StampedAtFirst(capacity, ttl, workers);
    hide Inv, StampsOk, Init;
    RunStamps(Init(capacity, ttl, workers), es);
  }

  lemma StampedAtFirst(capacity: nat, ttl: nat, workers: nat)
    ensures Inv(Init(capacity, ttl, workers)) && StampsOk(Init(capacity, ttl, workers))
  {
  }

  /** However jobs were submitted, restarted, canceled and run, every record's stamps are in
      order and in the past, and one that has ended is kept for the retention time from its end. */
  lemma StampsInOrder(s: State)
    requires Reachable(s)
    ensures forall id <- s.store :: Stamped(s.store[id], s.clock)
    ensures forall id <- s.store :: Terminal(s.store[id].status) ==>
      s.store[id].finished.Some? && s.store[id].expires == Some(s.store[id].finished.value + s.ttl)
  {
    hide Reachable, StampsOk, Stamped, RecordOk;
    ReachableStamps(s);
    Records(s);
    StampedRecords(s);
    forall id | id in s.store && Terminal(s.store[id].status)
      ensures s.store[id].finished.Some? && s.store[id].expires == Some(s.store[id].finished.value + s.ttl)
    {
      EndedRecord(s.store[id], s.origin, s.ttl);
    }
  }

  lemma StampedRecords(s: State)
    requires StampsOk(s)
    ensures forall id <- s.store :: Stamped(s.store[id], s.clock)
  {
    hide Stamped;
  }

  lemma EndedRecord(j: Job, origin: map<Id, Origin>, ttl: nat)
    requires RecordOk(j, origin, ttl) && Terminal(j.status)
    ensures j.finished.Some? && j.expires == Some(j.finished.value + ttl)
  {
  }

  // ---------------------------------------------------------------- a job's life

  /** A job from its submission to its result, every field of its record written out. */
  lemma SucceededExample() returns (s: State)
    ensures Reachable(s) && s.up && s.clock == 35 && s.workers == [Idle] && s.queue == []
    ensures s.store == map[7 := Job(7, "sign", Succeeded, 10, Some(20), Some(30), Some(90), None, Some("signed"), None)]
  {
    var s0 := ReadyExample();
    hide Reachable;
    var s1 := Walk(s0, RunGet(0));
    var s2 := Walk(s1, Tick(20));
    var s3 := Walk(s2, RunStart(0));
    assert s3.workers == [Executing(Job(7, "sign", Running, 10, Some(20), None, None, Some("request"), None, None))];
    s := Outcome(s3, true, "signed");
  }

  /** And one that fails. */
  lemma FailedExample() returns (s: State)
    ensures Reachable(s) && s.up && s.workers == [Idle]
    ensures s.store == map[7 := Job(7, "sign", Failed, 10, Some(20), Some(30), Some(90), None, None, Some("no key"))]
  {
    var s0 := ReadyExample();
    hide Reachable;
    var s1 := Walk(s0, RunGet(0));
    var s2 := Walk(s1, Tick(20));
    var s3 := Walk(s2, RunStart(0));
    assert s3.workers == [Executing(Job(7, "sign", Running, 10, Some(20), None, None, Some("request"), None, None))];
    s := Outcome(s3, false, "no key");
  }

  /** And one canceled while it was queued: the worker that takes it up leaves it alone. */
  lemma CanceledExample() returns (s: State)
    ensures Reachable(s) && s.up && s.workers == [Idle] && s.queue == []
    ensures s.store == map[7 := Job(7, "sign", Canceled, 10, None, Some(15), Some(75), None, None, None)]
  {
    var s0 := ReadyExample();
    hide Reachable;
    var s1 := Walk(s0, CancelGet(0, 7));
    var s2 := Walk(s1, CancelSave(0));
    s := Walk(s2, RunGet(0));
    assert s.workers == [Idle];
  }

  function EndedJob(ok: bool, output: string): (j: Job) {
    Job(7, "sign", if ok then Succeeded else Failed, 10, Some(20), Some(30), Some(90), None,
        if ok then Some(output) else None, if ok then None else Some(output))
  }

  lemma Outcome(s: State, ok: bool, output: string) returns (t: State)
    requires Reachable(s) && s.up && s.clock == 20 && s.ttl == 60 && s.queue == []
    requires s.workers == [Executing(Job(7, "sign", Running, 10, Some(20), None, None, Some("request"), None, None))]
    requires s.store.Keys == {7}
    ensures Reachable(t) && t.up && t.clock == 35 && t.workers == [Idle] && t.queue == []
    ensures t.store == map[7 := EndedJob(ok, output)]
  {
    hide Reachable;
    var s4 := Walk(s, Tick(30));
    var s5 := Walk(s4, Finish(0, ok, output));
    assert s5.workers == [Finished(EndedJob(ok, output))];
    t := Saved(s5, EndedJob(ok, output));
  }

  lemma Saved(s: State, j: Job) returns (t: State)
    requires Reachable(s) && s.up && s.clock == 30 && s.workers == [Finished(j)] && s.store.Keys == {j.id}
      && s.queue == []
    ensures Reachable(t) && t.up && t.clock == 35 && t.workers == [Idle] && t.queue == [] && t.store == map[j.id := j]
  {
    hide Reachable;
    var s6 := Walk(s, Tick(35));
    t := Walk(s6, RunSave(0));
    assert t.workers == [Idle];
  }

  lemma Walk(s: State, e: Event) returns (t: State)
    requires Reachable(s) && Enabled(s, e)
    ensures Reachable(t) && t == Apply(s, e)
  {
    hide Reachable, Apply, Enabled;
    StepReachable(s, e);
    t := Apply(s, e);
  }

  lemma ReadyExample() returns (s: State)
    ensures Reachable(s) && s.up && s.clock == 15 && s.ttl == 60 && s.workers == [Picked(7)] && s.queue == []
    ensures s.cancels == map[]
    ensures s.store == map[7 := Job(7, "sign", Queued, 10, None, None, None, Some("request"), None, None)]
  {
    var s2 := UpExample();
    hide Reachable;
    var s3 := Walk(s2, Submit(7, "sign", "request"));
    var s4 := Walk(s3, Enqueue(7));
    assert s4.queue == [7];
    var s5 := Walk(s4, Tick(15));
    s := Walk(s5, Pick(0));
    assert s.workers == [Picked(7)];
  }

  lemma UpExample() returns (s: State)
    ensures Reachable(s) && s.up && s.clock == 10 && s.ttl == 60 && s.workers == [Idle] && s.queue == []
    ensures s.capacity == 1 && s.cancels == map[] && s.store == map[] && s.origin == map[]
  {
    var s0 := Init(1, 60, 1);
    assert Run(s0, []) == Some(s0);
    assert Reachable(s0);
    hide Reachable, Run;
    var s1 := Walk(s0, Start([]));
    s := Walk(s1, Tick(10));
    assert s.workers == [Idle];
  }
}
