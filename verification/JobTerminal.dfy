/**
 When a terminal record is final. Saving never re-reads the store, so a copy taken
 earlier can overwrite what was decided since: a terminal record changes, other than by
 being reaped, exactly when such a copy is out.
 */
module JobTerminal {
  import opened Prelude
  import opened JobStore
  import opened JobManager
  import opened JobSafety

  // ---------------------------------------------------------------- jobs being executed

  predicate Busy(wk: Worker) { wk.Executing? || wk.Finished? }

  /** A job in execution has started in this process life; meanwhile its record can at most
      have been canceled. */
  predicate BusyAt(wk: Worker, store: Jobs, runs: map<Id, nat>) {
    Busy(wk) ==>
      && wk.job.id in runs && runs[wk.job.id] == 1
      && (wk.job.id in store ==> store[wk.job.id].status == Running || store[wk.job.id].status == Canceled)
      && (wk.Finished? ==> wk.job.status == Succeeded || wk.job.status == Failed)
  }

  /** No two workers execute one job. */
  predicate Apart(workers: seq<Worker>) {
    forall w, v :: 0 <= w < v < |workers| && Busy(workers[w]) && Busy(workers[v]) ==>
      workers[w].job.id != workers[v].job.id
  }

  predicate BusyOk(s: State) {
    Apart(s.workers) && forall w :: 0 <= w < |s.workers| ==> BusyAt(s.workers[w], s.store, s.runs)
  }

  /** Whoever was executing a job still is or has stopped, and nothing about the job changed
      that matters. */
  predicate Calmer(wk: Worker, after: Worker, s: State, t: State) {
    Busy(after) ==>
      && Busy(wk) && wk.job.id == after.job.id
      && (after.Finished? ==> after.job.status == Succeeded || after.job.status == Failed)
      && (after.job.id in s.runs ==> after.job.id in t.runs && t.runs[after.job.id] == s.runs[after.job.id])
      && (after.job.id in t.store ==>
            t.store[after.job.id].status == Canceled
            || (after.job.id in s.store && t.store[after.job.id].status == s.store[after.job.id].status))
  }

  lemma CalmStep(s: State, t: State)
    requires BusyOk(s) && |t.workers| == |s.workers|
    requires forall w :: 0 <= w < |s.workers| ==> Calmer(s.workers[w], t.workers[w], s, t)
    ensures BusyOk(t)
  {
    forall w | 0 <= w < |t.workers| ensures BusyAt(t.workers[w], t.store, t.runs) {
      assert BusyAt(s.workers[w], s.store, s.runs) && Calmer(s.workers[w], t.workers[w], s, t);
    }
    forall w, v | 0 <= w < v < |t.workers| && Busy(t.workers[w]) && Busy(t.workers[v])
      ensures t.workers[w].job.id != t.workers[v].job.id
    {
      assert Calmer(s.workers[w], t.workers[w], s, t) && Calmer(s.workers[v], t.workers[v], s, t);
    }
  }

  lemma BusyKnown(s: State, w: nat)
    requires Inv(s) && BusyOk(s) && w < |s.workers| && Busy(s.workers[w])
    ensures s.workers[w].job.id in s.origin && s.workers[w].job.id in s.runs && s.runs[s.workers[w].job.id] == 1
  {
    hide RecordsOk, PlacesOk, DownOk;
    assert BusyAt(s.workers[w], s.store, s.runs);
  }

  predicate StartsOrSaves(e: Event) { e.Start? || e.RunStart? || e.RunSave? || e.Submit? || e.Finish? }

  lemma OtherSteps(s: State, e: Event)
    requires BusyOk(s) && Enabled(s, e) && !StartsOrSaves(e)
    ensures BusyOk(Apply(s, e))
  {
    hide BusyOk;
    var t := Apply(s, e);
    forall w | 0 <= w < |s.workers| ensures Calmer(s.workers[w], t.workers[w], s, t) {
      KnownFinished(s, w);
    }
    CalmStep(s, t);
  }

  lemma KnownFinished(s: State, w: nat)
    requires BusyOk(s) && w < |s.workers|
    ensures s.workers[w].Finished? ==> s.workers[w].job.status == Succeeded || s.workers[w].job.status == Failed
    ensures Busy(s.workers[w]) ==> s.workers[w].job.id in s.runs && s.runs[s.workers[w].job.id] == 1
  {
    assert BusyAt(s.workers[w], s.store, s.runs);
  }

  lemma FinishBusy(s: State, w: nat, ok: bool, output: string)
    requires BusyOk(s) && Enabled(s, Finish(w, ok, output))
    ensures BusyOk(Apply(s, Finish(w, ok, output)))
  {
    hide BusyOk;
    var t := Apply(s, Finish(w, ok, output));
    forall v | 0 <= v < |s.workers| ensures Calmer(s.workers[v], t.workers[v], s, t) { KnownFinished(s, v); }
    CalmStep(s, t);
  }

  lemma StartBusy(s: State, ids: seq<Id>)
    requires Inv(s) && Enabled(s, Start(ids))
    ensures BusyOk(Apply(s, Start(ids)))
  {
    hide RecordsOk, TokensOk, PlacesOk;
  }

  lemma SubmitBusy(s: State, id: Id, op: string, request: string)
    requires Inv(s) && BusyOk(s) && Enabled(s, Submit(id, op, request))
    ensures BusyOk(Apply(s, Submit(id, op, request)))
  {
    hide BusyOk, Inv;
    var t := Apply(s, Submit(id, op, request));
    forall v | 0 <= v < |s.workers| ensures Calmer(s.workers[v], t.workers[v], s, t) {
      KnownFinished(s, v);
      if Busy(s.workers[v]) { BusyKnown(s, v); }
    }
    CalmStep(s, t);
  }

  lemma SaveBusy(s: State, w: nat)
    requires BusyOk(s) && Enabled(s, RunSave(w))
    ensures BusyOk(Apply(s, RunSave(w)))
  {
    var t := Apply(s, RunSave(w));
    forall v | 0 <= v < |s.workers| ensures Calmer(s.workers[v], t.workers[v], s, t) {
      if v != w && Busy(s.workers[v]) { assert BusyAt(s.workers[v], s.store, s.runs); }
    }
    hide BusyOk;
    CalmStep(s, t);
  }

  lemma NotYetRun(s: State, w: nat)
    requires Inv(s) && Enabled(s, RunStart(w))
    ensures s.workers[w].job.id in s.runs && s.runs[s.workers[w].job.id] == 0
  {
    hide RecordsOk, DownOk;
    assert TokenOf(s.workers[w]) == Some(s.workers[w].job.id);
  }

  lemma RunStartBusy(s: State, w: nat)
    requires Inv(s) && BusyOk(s) && Enabled(s, RunStart(w))
    ensures BusyOk(Apply(s, RunStart(w)))
  {
    hide Inv;
    NotYetRun(s, w);
    var t := Apply(s, RunStart(w));
    forall v | 0 <= v < |t.workers| ensures BusyAt(t.workers[v], t.store, t.runs) {
      assert BusyAt(s.workers[v], s.store, s.runs);
    }
    forall v | 0 <= v < |t.workers| && v != w && Busy(t.workers[v]) ensures t.workers[v].job.id != t.workers[w].job.id {
      assert BusyAt(s.workers[v], s.store, s.runs);
    }
  }

  lemma StepBusy(s: State, e: Event)
    requires Inv(s) && BusyOk(s) && Enabled(s, e)
    ensures BusyOk(Apply(s, e))
  {
    hide Inv, BusyOk, Apply, Enabled;
    match e
    case Start(ids) => StartBusy(s, ids);
    case RunStart(w) => RunStartBusy(s, w);
    case RunSave(w) => SaveBusy(s, w);
    case Submit(id, op, request) => SubmitBusy(s, id, op, request);
    case Finish(w, ok, output) => FinishBusy(s, w, ok, output);
    case _ => OtherSteps(s, e);
  }

  lemma {:induction false} RunBusy(s: State, es: seq<Event>)
    requires Inv(s) && BusyOk(s) && Run(s, es).Some?
    ensures BusyOk(Run(s, es).value)
    decreases |es|
  {
    hide Inv, BusyOk, Apply, Enabled;
    if |es| > 0 {
      StepInv(s, es[0]);
      StepBusy(s, es[0]);
      RunBusy(Apply(s, es[0]), es[1..]);
    }
  }

  lemma ReachableBusy(s: State)
    requires Reachable(s)
    ensures BusyOk(s)
  {
    var capacity, ttl, workers, es :| Run(Init(capacity, ttl, workers), es) == Some(s);
    assert Inv(Init(capacity, ttl, workers)) && BusyOk(Init(capacity, ttl, workers));
    hide Inv, BusyOk;
    RunBusy(Init(capacity, ttl, workers), es);
  }

  // ---------------------------------------------------------------- ways to change a terminal record

  /** These steps, none of them the reaper's, leave another record under the id, or none. */
  ghost predicate ChangesBy(s: State, id: Id, es: seq<Event>)
    requires id in s.store
  {
    Reap !in es && Run(s, es).Some? && !(id in Run(s, es).value.store && Run(s, es).value.store[id] == s.store[id])
  }

  ghost predicate CanChange(s: State, id: Id)
    requires id in s.store
  {
    exists es: seq<Event> :: ChangesBy(s, id, es)
  }

  lemma RunOne(s: State, e: Event)
    requires Enabled(s, e)
    ensures Run(s, [e]) == Some(Apply(s, e))
  {
    hide Enabled, Apply;
    assert [e][1..] == [];
    assert Run(Apply(s, e), []) == Some(Apply(s, e));
  }

  lemma RunTwo(s: State, e: Event, f: Event)
    requires Enabled(s, e) && Enabled(Apply(s, e), f)
    ensures Run(s, [e, f]) == Some(Apply(Apply(s, e), f))
  {
    hide Enabled, Apply;
    RunOne(Apply(s, e), f);
    assert [e, f][1..] == [f];
  }

  /** A worker about to start a job starts it although it was canceled meanwhile: the record
      goes back to running, and the job is executed. */
  lemma CopiedChanges(s: State, w: nat, id: Id)
    requires s.up && At(s, w) && s.workers[w].Copied? && s.workers[w].job.id == id && id in s.store
      && Terminal(s.store[id].status)
    ensures Enabled(s, RunStart(w)) && ChangesBy(s, id, [RunStart(w)])
    ensures var t := Apply(s, RunStart(w)); id in t.store && t.store[id].status == Running && t.workers[w].Executing?
  {
    RunOne(s, RunStart(w));
  }

  /** A worker executing a job saves its outcome over whatever is there. */
  lemma ExecutingChanges(s: State, w: nat, id: Id)
    requires s.up && At(s, w) && s.workers[w].Executing? && s.workers[w].job.id == id && id in s.store
      && Terminal(s.store[id].status)
    ensures var e := Finish(w, s.store[id].status != Succeeded, ""); ChangesBy(s, id, [e, RunSave(w)])
  {
    var e := Finish(w, s.store[id].status != Succeeded, "");
    RunTwo(s, e, RunSave(w));
  }

  lemma FinishedChanges(s: State, w: nat, id: Id)
    requires BusyOk(s) && s.up && At(s, w) && s.workers[w].Finished? && s.workers[w].job.id == id
    requires id in s.store && Terminal(s.store[id].status)
    ensures ChangesBy(s, id, [RunSave(w)])
  {
    assert BusyAt(s.workers[w], s.store, s.runs);
    RunOne(s, RunSave(w));
  }

  /** A cancel that took its copy before another one finished stamps the record anew. */
  lemma CancelChanges(s: State, k: nat, id: Id)
    requires s.up && k in s.cancels && s.cancels[k].id == id && id in s.store
    ensures var now := s.clock + (if s.store[id].finished == Some(s.clock) then 1 else 0);
      ChangesBy(s, id, [Tick(now), CancelSave(k)])
  {
    var now := s.clock + (if s.store[id].finished == Some(s.clock) then 1 else 0);
    RunTwo(s, Tick(now), CancelSave(k));
  }

  // A submit still deciding rolls its record back when the queue is full; other submits can fill it.

  lemma {:induction false} Above(ids: set<Id>) returns (n: Id)
    ensures forall i :: i in ids ==> i < n
  {
    if ids == {} { return 0; }
    var x :| x in ids;
    var m := Above(ids - {x});
    n := if m > x then m else x + 1;
    assert ids == ids - {x} + {x};
  }

  lemma RoomTaken(s: State, n: Id)
    requires s.up && n !in s.origin && |s.queue| < s.capacity
    ensures Enabled(s, Submit(n, "", "")) && Enabled(Apply(s, Submit(n, "", "")), Enqueue(n))
    ensures var t := Apply(Apply(s, Submit(n, "", "")), Enqueue(n));
      && t.up && t.capacity == s.capacity && |t.queue| == |s.queue| + 1 && t.submits == s.submits - {n}
      && forall id :: id in s.store && id != n ==> id in t.store && t.store[id] == s.store[id]
  {
    assert s.submits + {n} - {n} == s.submits - {n};
  }

  lemma {:induction false} RejectedOnceFull(s: State, id: Id) returns (es: seq<Event>)
    requires s.up && id in s.submits && id in s.store && id in s.origin
    ensures Reap !in es && Run(s, es).Some? && id !in Run(s, es).value.store
    decreases s.capacity - |s.queue|
  {
    if |s.queue| >= s.capacity {
      es := [RejectBusy(id)];
      RunOne(s, RejectBusy(id));
    } else {
      var n := Above(s.origin.Keys);
      RoomTaken(s, n);
      var a := Apply(s, Submit(n, "", ""));
      var t := Apply(a, Enqueue(n));
      Remembered(s, n, id);
      hide Apply, Enabled;
      var rest := RejectedOnceFull(t, id);
      es := [Submit(n, "", ""), Enqueue(n)] + rest;
      assert es[1..] == [Enqueue(n)] + rest && es[1..][1..] == rest;
      assert Run(a, es[1..]) == Run(t, rest);
    }
  }

  lemma Remembered(s: State, n: Id, id: Id)
    requires s.up && n !in s.origin && |s.queue| < s.capacity && id in s.origin
    requires Enabled(s, Submit(n, "", "")) && Enabled(Apply(s, Submit(n, "", "")), Enqueue(n))
    ensures id in Apply(Apply(s, Submit(n, "", "")), Enqueue(n)).origin
  {
  }

  // ---------------------------------------------------------------- the exact condition

  /** Somebody may still write this record: a worker or a cancel holds a copy, or its submit
      may yet roll it back. */
  predicate Writable(s: State, id: Id) { !NoCopies(s, id) || id in s.submits }

  lemma WritableChanges(s: State, id: Id)
    requires Inv(s) && BusyOk(s) && id in s.store && Terminal(s.store[id].status) && Writable(s, id)
    ensures CanChange(s, id)
  {
    WritableIsUp(s, id);
    hide BusyOk, Run, ChangesBy, CanChange;
    if id in s.submits {
      SubmitChanges(s, id);
    } else if k :| k in s.cancels && s.cancels[k].id == id {
      CancelChanges(s, k, id);
      CanChangeBy(s, id, [Tick(s.clock + (if s.store[id].finished == Some(s.clock) then 1 else 0)), CancelSave(k)]);
    } else {
      var w :| 0 <= w < |s.workers| && Holds(s.workers[w], id);
      WorkerChanges(s, w, id);
    }
  }

  lemma CanChangeBy(s: State, id: Id, es: seq<Event>)
    requires id in s.store && ChangesBy(s, id, es)
    ensures CanChange(s, id)
  {
    hide ChangesBy;
  }

  lemma SubmitChanges(s: State, id: Id)
    requires Inv(s) && s.up && id in s.submits && id in s.store
    ensures CanChange(s, id)
  {
    SubmitKnown(s, id);
    hide Inv, Run;
    var es := RejectedOnceFull(s, id);
    assert ChangesBy(s, id, es);
  }

  lemma WorkerChanges(s: State, w: nat, id: Id)
    requires BusyOk(s) && s.up && At(s, w) && Holds(s.workers[w], id) && id in s.store && Terminal(s.store[id].status)
    ensures CanChange(s, id)
  {
    hide BusyOk, Run, ChangesBy, CanChange, Enabled, Apply;
    if s.workers[w].Copied? {
      CopiedChanges(s, w, id);
      CanChangeBy(s, id, [RunStart(w)]);
    } else if s.workers[w].Executing? {
      ExecutingChanges(s, w, id);
      CanChangeBy(s, id, [Finish(w, s.store[id].status != Succeeded, ""), RunSave(w)]);
    } else {
      FinishedChanges(s, w, id);
      CanChangeBy(s, id, [RunSave(w)]);
    }
  }

  lemma WritableIsUp(s: State, id: Id)
    requires DownOk(s) && Writable(s, id)
    ensures s.up
  {
  }

  lemma SubmitKnown(s: State, id: Id)
    requires Inv(s) && id in s.submits
    ensures id in s.origin
  {
    hide RecordsOk, PlacesOk, DownOk;
  }

  lemma StaysSettled(s: State, e: Event, id: Id)
    requires Inv(s) && Enabled(s, e) && id in s.store && id !in s.submits
    ensures id !in Apply(s, e).submits
  {
    assert RecordOk(s.store[id], s.origin, s.ttl) && s.store[id].id == id;
    hide Inv;
    if !e.Submit? {
      NoneSubmitted(s, e);
      hide Apply;
    }
  }

  lemma NoneSubmitted(s: State, e: Event)
    requires Enabled(s, e) && !e.Submit?
    ensures Apply(s, e).submits <= s.submits
  {
  }

  lemma {:induction false} SettledRun(s: State, id: Id, es: seq<Event>)
    requires Reachable(s) && id in s.store && Terminal(s.store[id].status) && !Writable(s, id)
    requires Reap !in es && Run(s, es).Some?
    ensures id in Run(s, es).value.store && Run(s, es).value.store[id] == s.store[id]
    decreases |es|
  {
    hide Apply, Enabled, NoCopies, Inv, Reachable;
    if |es| > 0 {
      ReachableInv(s);
      TerminalStays(s, es[0], id);
      StaysSettled(s, es[0], id);
      StepReachable(s, es[0]);
      assert es[0] in es && Reap !in es[1..];
      SettledRun(Apply(s, es[0]), id, es[1..]);
    }
  }

  /** A terminal record can change, by something other than the reaper, if and only if somebody
      may still write it. */
  lemma TerminalExactly(s: State, id: Id)
    requires Reachable(s) && id in s.store && Terminal(s.store[id].status)
    ensures CanChange(s, id) <==> Writable(s, id)
  {
    hide Run, Apply, Enabled, Writable, Inv, BusyOk, Reachable;
    if Writable(s, id) {
      ReachableInv(s);
      ReachableBusy(s);
      WritableChanges(s, id);
    }
    if CanChange(s, id) && !Writable(s, id) {
      var es :| ChangesBy(s, id, es);
      SettledRun(s, id, es);
    }
  }

  lemma CopiedExample() returns (s: State)
    ensures Reachable(s) && s.up && s.workers == [Copied(NewJob(7, "sign", "request", 0))] && s.cancels == map[]
    ensures s.store == map[7 := NewJob(7, "sign", "request", 0)]
  {
    hide Reachable;
    var s0 := QueuedExample();
    StepReachable(s0, Pick(0));
    var s1 := Apply(s0, Pick(0));
    StepReachable(s1, RunGet(0));
    s := Apply(s1, RunGet(0));
    assert s.workers == [Copied(NewJob(7, "sign", "request", 0))];
  }

  /** A canceled job that is about to be started anyway is a state the manager can be in. */
  lemma CanceledYetStartedExample() returns (s: State)
    ensures Reachable(s) && s.up && At(s, 0) && s.workers[0].Copied? && s.workers[0].job.id == 7
    ensures 7 in s.store && s.store[7].status == Canceled
  {
    hide Reachable;
    var s2 := CopiedExample();
    StepReachable(s2, CancelGet(0, 7));
    var s3 := Apply(s2, CancelGet(0, 7));
    StepReachable(s3, CancelSave(0));
    s := Apply(s3, CancelSave(0));
  }
}
