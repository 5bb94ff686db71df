/** What the job manager keeps over every run. */
module JobSafety {
  import opened Prelude
  import opened JobStore
  import opened JobManager

  lemma TickStep(s: State, now: Time)
    requires Inv(s) && Enabled(s, Tick(now))
    ensures Inv(Apply(s, Tick(now)))
  {
    hide RecordOk, WorkerOk;
  }

  lemma ShutdownStep(s: State)
    requires Inv(s) && Enabled(s, Shutdown)
    ensures Inv(Apply(s, Shutdown))
  {
    hide RecordOk;
  }

  lemma CancelGetStep(s: State, k: nat, id: Id)
    requires Inv(s) && Enabled(s, CancelGet(k, id))
    ensures Inv(Apply(s, CancelGet(k, id)))
  {
    hide RecordOk, WorkerOk;
  }

  lemma InterruptedStep(s: State, w: nat)
    requires Inv(s) && Enabled(s, Interrupted(w))
    ensures Inv(Apply(s, Interrupted(w)))
  {
    hide RecordOk;
    var t := Apply(s, Interrupted(w));
    assert RecordsOk(t);
    hide RecordsOk, WorkerOk, TokensOk, PlacesOk;
    TokensUnmoved(s, t);
  }

  /** A step that leaves every token alone keeps them in place. */
  lemma TokensUnmoved(s: State, t: State)
    requires TokensOk(s) && PlacesOk(s) && s.up && t.up
    requires t.place == s.place && t.runs == s.runs && t.origin == s.origin && t.queue == s.queue
    requires t.backlog == s.backlog && t.submits == s.submits && |t.workers| == |s.workers|
    requires forall v :: 0 <= v < |s.workers| ==> TokenOf(t.workers[v]) == TokenOf(s.workers[v])
    requires forall id :: id in t.store && t.store[id].status == Queued ==>
      id in s.store && s.store[id].status == Queued
    ensures TokensOk(t) && PlacesOk(t)
  {
    hide TokenOf;
    forall x | x in t.place ensures PlaceOk(t, x, t.place[x]) { assert PlaceOk(s, x, s.place[x]); }
  }

  lemma ReapStep(s: State)
    requires Inv(s) && Enabled(s, Reap)
    ensures Inv(Apply(s, Reap))
  {
    ReapRecords(s);
    hide RecordsOk, TokensOk, PlacesOk;
    TokensUnmoved(s, Apply(s, Reap));
  }

  lemma ReapRecords(s: State)
    requires RecordsOk(s) && Enabled(s, Reap)
    ensures RecordsOk(Apply(s, Reap))
  {
    hide RecordOk, WorkerOk;
  }

  lemma StartRecords(s: State, ids: seq<Id>)
    requires Inv(s) && Enabled(s, Start(ids))
    ensures RecordsOk(Apply(s, Start(ids)))
    ensures forall id :: id in ids ==> id in s.origin
  {
    hide TokensOk, PlacesOk, WorkerOk;
    var t := Apply(s, Start(ids));
    forall id | id in t.store ensures t.store[id].id == id && RecordOk(t.store[id], t.origin, t.ttl) && id in s.origin {
      assert t.store[id] == Requeued(s.store[id]);
    }
  }

  lemma StartStep(s: State, ids: seq<Id>)
    requires Inv(s) && Enabled(s, Start(ids))
    ensures Inv(Apply(s, Start(ids)))
  {
    StartRecords(s, ids);
    StartTokens(s, ids);
    StartPlaces(s, ids);
    hide RecordsOk, TokensOk, PlacesOk;
  }

  lemma StartTokens(s: State, ids: seq<Id>)
    requires TokensOk(s) && DownOk(s) && Enabled(s, Start(ids)) && forall id :: id in ids ==> id in s.origin
    ensures TokensOk(Apply(s, Start(ids)))
  {
    hide Recovered;
  }

  lemma StartPlaces(s: State, ids: seq<Id>)
    requires Inv(s) && Enabled(s, Start(ids)) && forall id :: id in ids ==> id in s.origin
    ensures PlacesOk(Apply(s, Start(ids)))
  {
    hide RecordsOk, Recovered;
    assert s.runs.Keys == s.origin.Keys;
    hide TokensOk, TokenOf;
  }

  lemma SubmitStep(s: State, id: Id, op: string, request: string)
    requires Inv(s) && Enabled(s, Submit(id, op, request))
    ensures Inv(Apply(s, Submit(id, op, request)))
  {
    SubmitRecords(s, id, op, request);
    hide RecordsOk, TokensOk, PlacesOk;
    SubmitTokens(s, id, op, request);
    SubmitPlaces(s, id, op, request);
  }

  lemma SubmitTokens(s: State, id: Id, op: string, request: string)
    requires Inv(s) && Enabled(s, Submit(id, op, request))
    ensures TokensOk(Apply(s, Submit(id, op, request)))
  {
    hide RecordsOk, PlacesOk, DownOk, NewJob;
  }

  lemma SubmitPlaced(s: State, id: Id, op: string, request: string)
    requires AllPlaced(s) && Enabled(s, Submit(id, op, request)) && id !in s.place
    ensures AllPlaced(Apply(s, Submit(id, op, request)))
  {
    hide TokenOf;
    var t := Apply(s, Submit(id, op, request));
    forall x | x in t.place ensures PlaceOk(t, x, t.place[x]) {
      if x != id { assert PlaceOk(s, x, s.place[x]); }
    }
  }

  lemma SubmitPlaces(s: State, id: Id, op: string, request: string)
    requires Inv(s) && Enabled(s, Submit(id, op, request))
    ensures PlacesOk(Apply(s, Submit(id, op, request)))
  {
    hide RecordsOk, DownOk, Distinct, AllPlaced, TokenOf;
    assert id !in s.place && s.runs.Keys == s.place.Keys;
    hide TokensOk;
    SubmitPlaced(s, id, op, request);
    assert QueuedPlaced(Apply(s, Submit(id, op, request)));
  }

  lemma SubmitRecords(s: State, id: Id, op: string, request: string)
    requires Inv(s) && Enabled(s, Submit(id, op, request))
    ensures RecordsOk(Apply(s, Submit(id, op, request)))
  {
    hide TokensOk, PlacesOk, DownOk, RecordOk, WorkerOk;
    var t := Apply(s, Submit(id, op, request));
    forall x | x in t.store ensures t.store[x].id == x && RecordOk(t.store[x], t.origin, t.ttl) {
      if x == id { NewRecord(id, op, request, s.clock, t.origin, s.ttl); }
      else { OriginGrows(s.store[x], s.origin, id, t.origin[id], s.ttl); }
    }
    forall k | k in t.cancels ensures RecordOk(t.cancels[k], t.origin, t.ttl) && !Terminal(t.cancels[k].status) {
      OriginGrows(s.cancels[k], s.origin, id, t.origin[id], s.ttl);
    }
    forall w | 0 <= w < |t.workers| ensures WorkerOk(t.workers[w], t.origin, t.ttl) {
      WorkerGrows(s.workers[w], s.origin, id, t.origin[id], s.ttl);
    }
  }

  lemma NewRecord(id: Id, op: string, request: string, now: Time, origin: map<Id, Origin>, ttl: nat)
    requires id in origin && origin[id] == Origin(op, request)
    ensures RecordOk(NewJob(id, op, request, now), origin, ttl)
  {
  }

  lemma OriginGrows(j: Job, origin: map<Id, Origin>, id: Id, o: Origin, ttl: nat)
    requires RecordOk(j, origin, ttl) && id !in origin
    ensures RecordOk(j, origin[id := o], ttl)
  {
  }

  lemma WorkerGrows(wk: Worker, origin: map<Id, Origin>, id: Id, o: Origin, ttl: nat)
    requires WorkerOk(wk, origin, ttl) && id !in origin
    ensures WorkerOk(wk, origin[id := o], ttl)
  {
  }

  lemma EnqueueStep(s: State, id: Id)
    requires Inv(s) && Enabled(s, Enqueue(id))
    ensures Inv(Apply(s, Enqueue(id)))
  {
    hide RecordOk, WorkerOk;
    var t := Apply(s, Enqueue(id));
    assert t.queue[|s.queue|] == id;
  }

  lemma RejectStep(s: State, id: Id)
    requires Inv(s) && Enabled(s, RejectBusy(id))
    ensures Inv(Apply(s, RejectBusy(id)))
  {
    hide RecordOk, WorkerOk;
  }

  lemma Shifted(q: seq<Id>, x: Id)
    requires |q| > 0 && Distinct(q)
    ensures Distinct(q[1..]) && (x in q[1..] <==> x in q && x != q[0])
  {
    assert q == [q[0]] + q[1..];
  }

  lemma RequeueStep(s: State)
    requires Inv(s) && Enabled(s, Requeue)
    ensures Inv(Apply(s, Requeue))
  {
    RequeueTokens(s);
    RequeuePlaces(s);
    hide RecordOk, WorkerOk, TokensOk, PlacesOk;
  }

  lemma RequeueTokens(s: State)
    requires TokensOk(s) && Enabled(s, Requeue)
    ensures TokensOk(Apply(s, Requeue))
  {
    var t := Apply(s, Requeue);
    assert t.queue[|s.queue|] == s.backlog[0];
    assert forall k :: 0 <= k < |t.backlog| ==> t.backlog[k] == s.backlog[k + 1];
  }

  lemma RequeuePlaces(s: State)
    requires TokensOk(s) && PlacesOk(s) && Enabled(s, Requeue)
    ensures PlacesOk(Apply(s, Requeue))
  {
    var t := Apply(s, Requeue);
    assert s.place[s.backlog[0]] == InBacklog && Distinct(s.backlog);
    hide TokensOk, TokenOf;
    assert t.queue[|s.queue|] == s.backlog[0];
    forall x | x in t.place ensures PlaceOk(t, x, t.place[x]) {
      Shifted(s.backlog, x);
      assert PlaceOk(s, x, s.place[x]);
    }
  }

  lemma PickStep(s: State, w: nat)
    requires Inv(s) && Enabled(s, Pick(w))
    ensures Inv(Apply(s, Pick(w)))
  {
    PickTokens(s, w);
    PickPlaces(s, w);
    hide RecordOk, TokensOk, PlacesOk;
    assert s.queue[0] in s.origin by { HeadKnown(s); }
  }

  lemma HeadKnown(s: State)
    requires TokensOk(s) && |s.queue| > 0
    ensures s.queue[0] in s.origin && s.place[s.queue[0]] == InQueue
  {
  }

  lemma PickTokens(s: State, w: nat)
    requires Inv(s) && Enabled(s, Pick(w))
    ensures TokensOk(Apply(s, Pick(w)))
  {
    hide RecordsOk, PlacesOk, DownOk;
    var t := Apply(s, Pick(w));
    assert forall k :: 0 <= k < |t.queue| ==> t.queue[k] == s.queue[k + 1];
  }

  lemma PickPlaces(s: State, w: nat)
    requires Inv(s) && Enabled(s, Pick(w))
    ensures PlacesOk(Apply(s, Pick(w)))
  {
    hide RecordsOk, DownOk;
    var t := Apply(s, Pick(w));
    HeadKnown(s);
    forall x | x in t.place ensures PlaceOk(t, x, t.place[x]) {
      Shifted(s.queue, x);
      assert PlaceOk(s, x, s.place[x]);
    }
  }

  lemma RunGetStep(s: State, w: nat)
    requires Inv(s) && Enabled(s, RunGet(w))
    ensures Inv(Apply(s, RunGet(w)))
  {
    RunGetRecords(s, w);
    RunGetTokens(s, w);
    RunGetPlaces(s, w);
    hide RecordsOk, TokensOk, PlacesOk;
  }

  lemma RunGetRecords(s: State, w: nat)
    requires RecordsOk(s) && Enabled(s, RunGet(w))
    ensures RecordsOk(Apply(s, RunGet(w)))
  {
    assert WorkerOk(s.workers[w], s.origin, s.ttl);
    hide RecordOk;
  }

  lemma RunGetTokens(s: State, w: nat)
    requires Inv(s) && Enabled(s, RunGet(w))
    ensures TokensOk(Apply(s, RunGet(w)))
  {
    var id := s.workers[w].id;
    assert id in s.store ==> s.store[id].id == id;
    hide RecordsOk, DownOk;
    if id in s.store && s.store[id].status == Queued {
      hide TokensOk, PlacesOk;
      TokensUnmoved(s, Apply(s, RunGet(w)));
    } else {
      hide PlacesOk;
      DroppedTokens(s, Apply(s, RunGet(w)), w, id);
    }
  }

  /** A worker that gives a token up: it is nowhere any more. */
  lemma DroppedTokens(s: State, t: State, w: nat, id: Id)
    requires TokensOk(s) && w < |s.workers| && TokenOf(s.workers[w]) == Some(id)
    requires t == s.(workers := s.workers[w := Idle], place := SetPlace(s, id, Spent))
    ensures TokensOk(t)
  {
    assert s.place[id] == AtWorker(w);
  }

  lemma RunGetPlaces(s: State, w: nat)
    requires Inv(s) && Enabled(s, RunGet(w))
    ensures PlacesOk(Apply(s, RunGet(w)))
  {
    hide RecordOk, WorkerOk;
    var t := Apply(s, RunGet(w));
    var id := s.workers[w].id;
    assert TokenOf(s.workers[w]) == Some(id) && s.place[id] == AtWorker(w);
    forall x | x in t.place ensures PlaceOk(t, x, t.place[x]) { assert PlaceOk(s, x, s.place[x]); }
  }

  lemma RunStartStep(s: State, w: nat)
    requires Inv(s) && Enabled(s, RunStart(w))
    ensures Inv(Apply(s, RunStart(w)))
  {
    RunStartRecords(s, w);
    hide RecordsOk, WorkerOk, TokensOk, PlacesOk, DownOk, RecordOk;
    RunStartTokens(s, w);
    RunStartPlaces(s, w);
  }

  lemma RunStartRecords(s: State, w: nat)
    requires RecordsOk(s) && Enabled(s, RunStart(w))
    ensures RecordsOk(Apply(s, RunStart(w))) && s.workers[w].job.id in s.origin
  {
    var t := Apply(s, RunStart(w));
    assert WorkerOk(s.workers[w], s.origin, s.ttl);
    assert RecordOk(t.workers[w].job, t.origin, t.ttl) && t.workers[w].job.status == Running;
    hide RecordOk;
  }

  lemma RunStartTokens(s: State, w: nat)
    requires Inv(s) && Enabled(s, RunStart(w)) && s.workers[w].job.id in s.origin
    ensures TokensOk(Apply(s, RunStart(w))) && DownOk(Apply(s, RunStart(w)))
  {
    hide RecordsOk, PlacesOk;
    assert TokenOf(s.workers[w]) == Some(s.workers[w].job.id);
  }

  lemma RunStartPlaces(s: State, w: nat)
    requires Inv(s) && Enabled(s, RunStart(w)) && s.workers[w].job.id in s.origin
    ensures PlacesOk(Apply(s, RunStart(w)))
  {
    hide RecordsOk, DownOk, Distinct;
    var t := Apply(s, RunStart(w));
    var id := s.workers[w].job.id;
    assert TokenOf(s.workers[w]) == Some(id) && s.place[id] == AtWorker(w);
    assert s.runs[id] == 0;
    forall x | x in t.place ensures PlaceOk(t, x, t.place[x]) { assert PlaceOk(s, x, s.place[x]); }
  }

  lemma FinishStep(s: State, w: nat, ok: bool, output: string)
    requires Inv(s) && Enabled(s, Finish(w, ok, output))
    ensures Inv(Apply(s, Finish(w, ok, output)))
  {
    FinishRecords(s, w, ok, output);
    hide RecordsOk, WorkerOk, TokensOk, PlacesOk;
    TokensUnmoved(s, Apply(s, Finish(w, ok, output)));
  }

  lemma FinishRecords(s: State, w: nat, ok: bool, output: string)
    requires RecordsOk(s) && Enabled(s, Finish(w, ok, output))
    ensures RecordsOk(Apply(s, Finish(w, ok, output)))
  {
    assert WorkerOk(s.workers[w], s.origin, s.ttl);
    FinishedRecord(s.workers[w].job, s.origin, s.ttl, ok, output, s.clock);
    hide RecordOk;
  }

  lemma FinishedRecord(j: Job, origin: map<Id, Origin>, ttl: nat, ok: bool, output: string, now: Time)
    requires RecordOk(j, origin, ttl)
    ensures var r := Ended(j, if ok then Succeeded else Failed, now, ttl);
      && RecordOk(r.(result := Some(output)), origin, ttl) && RecordOk(r.(error := Some(output)), origin, ttl)
      && Terminal(r.status)
    ensures RecordOk(Ended(j, Canceled, now, ttl), origin, ttl)
  {
  }

  lemma CancelSaveRecords(s: State, k: nat)
    requires RecordsOk(s) && Enabled(s, CancelSave(k))
    ensures RecordsOk(Apply(s, CancelSave(k)))
  {
    hide WorkerOk;
    FinishedRecord(s.cancels[k], s.origin, s.ttl, true, "", s.clock);
    hide RecordOk;
  }

  lemma CancelSaveStep(s: State, k: nat)
    requires Inv(s) && Enabled(s, CancelSave(k))
    ensures Inv(Apply(s, CancelSave(k)))
  {
    CancelSaveRecords(s, k);
    hide RecordsOk, TokensOk, PlacesOk;
    TokensUnmoved(s, Apply(s, CancelSave(k)));
  }

  lemma RunSaveStep(s: State, w: nat)
    requires Inv(s) && Enabled(s, RunSave(w))
    ensures Inv(Apply(s, RunSave(w)))
  {
    RunSaveRecords(s, w);
    hide RecordsOk, WorkerOk, TokensOk, PlacesOk;
    TokensUnmoved(s, Apply(s, RunSave(w)));
  }

  lemma RunSaveRecords(s: State, w: nat)
    requires RecordsOk(s) && Enabled(s, RunSave(w))
    ensures RecordsOk(Apply(s, RunSave(w))) && Terminal(s.workers[w].job.status)
  {
    assert WorkerOk(s.workers[w], s.origin, s.ttl);
    hide RecordOk;
  }

  /** Every step keeps the invariant. */
  lemma StepInv(s: State, e: Event)
    requires Inv(s) && Enabled(s, e)
    ensures Inv(Apply(s, e))
  {
    hide Inv, Enabled, Apply;
    match e
    case Tick(now) => TickStep(s, now);
    case Shutdown => ShutdownStep(s);
    case CancelGet(k, id) => CancelGetStep(s, k, id);
    case Interrupted(w) => InterruptedStep(s, w);
    case Reap => ReapStep(s);
    case Start(ids) => StartStep(s, ids);
    case Submit(id, op, request) => SubmitStep(s, id, op, request);
    case Enqueue(id) => EnqueueStep(s, id);
    case RejectBusy(id) => RejectStep(s, id);
    case Requeue => RequeueStep(s);
    case CancelSave(k) => CancelSaveStep(s, k);
    case RunSave(w) => RunSaveStep(s, w);
    case Pick(w) => PickStep(s, w);
    case RunGet(w) => RunGetStep(s, w);
    case RunStart(w) => RunStartStep(s, w);
    case Finish(w, ok, output) => FinishStep(s, w, ok, output);
  }

  lemma {:induction false} RunInv(s: State, es: seq<Event>)
    requires Inv(s) && Run(s, es).Some?
    ensures Inv(Run(s, es).value)
    decreases |es|
  {
    hide Inv, Apply, Enabled;
    if |es| > 0 {
      StepInv(s, es[0]);
      RunInv(Apply(s, es[0]), es[1..]);
    }
  }

  ghost predicate Reachable(s: State) {
    exists capacity, ttl, workers, es :: Run(Init(capacity, ttl, workers), es) == Some(s)
  }

  lemma ReachableInv(s: State)
    requires Reachable(s)
    ensures Inv(s)
  {
    var capacity, ttl, workers, es :| Run(Init(capacity, ttl, workers), es) == Some(s);
    assert Inv(Init(capacity, ttl, workers));
    hide Inv;
    RunInv(Init(capacity, ttl, workers), es);
  }

  // ---------------------------------------------------------------- what it means

  /** Record invariant, for stored records and for every copy in anybody's hands: what a
      worker executes is the submitted operation and payload. */
  lemma Records(s: State)
    requires Reachable(s)
    ensures forall id :: id in s.store ==> s.store[id].id == id && RecordOk(s.store[id], s.origin, s.ttl)
    ensures forall w :: 0 <= w < |s.workers| && s.workers[w].Executing? ==>
      var j := s.workers[w].job;
      j.id in s.origin && j.op == s.origin[j.id].op && j.request == Some(s.origin[j.id].request)
  {
    ReachableInv(s);
    forall w | 0 <= w < |s.workers| ensures WorkerOk(s.workers[w], s.origin, s.ttl) {}
  }

  /** Reaping deletes exactly the finished jobs whose retention has run out. */
  lemma ReapExact(s: State, id: Id)
    requires Reachable(s) && s.up && id in s.store
    ensures id !in Apply(s, Reap).store <==>
      Terminal(s.store[id].status) && s.store[id].finished.Some? && s.store[id].finished.value + s.ttl <= s.clock
    ensures id in Apply(s, Reap).store ==> Apply(s, Reap).store[id] == s.store[id]
  {
    ReachableInv(s);
    assert RecordOk(s.store[id], s.origin, s.ttl);
  }

  /** No job lost or doubled: while the manager is up, a queued record has its token in
      exactly one of the four places a token can be... */
  lemma ExactlyOneToken(s: State, id: Id)
    requires Reachable(s) && s.up && id in s.store && s.store[id].status == Queued
    ensures id in s.submits || id in s.queue || id in s.backlog
      || exists w :: 0 <= w < |s.workers| && TokenOf(s.workers[w]) == Some(id)
  {
    ReachableInv(s);
    hide RecordsOk;
    assert PlaceOk(s, id, s.place[id]);
  }

  /** ... and no id, whatever its record, has two tokens anywhere. */
  lemma AtMostOneToken(s: State, id: Id)
    requires Reachable(s)
    ensures Distinct(s.queue) && Distinct(s.backlog)
    ensures id in s.submits ==> id !in s.queue && id !in s.backlog
    ensures id in s.queue ==> id !in s.backlog
    ensures forall w :: 0 <= w < |s.workers| && TokenOf(s.workers[w]) == Some(id) ==>
      id !in s.submits && id !in s.queue && id !in s.backlog
    ensures forall w, v :: 0 <= w < v < |s.workers| && TokenOf(s.workers[w]) == Some(id) ==>
      TokenOf(s.workers[v]) != Some(id)
  {
    ReachableInv(s);
    hide RecordsOk, PlacesOk, DownOk;
  }

  /** So each job runs at most once per process life. */
  lemma RunsOnce(s: State, id: Id)
    requires Reachable(s) && id in s.origin
    ensures id in s.runs && s.runs[id] <= 1
    ensures s.runs[id] == 1 ==> !exists w :: 0 <= w < |s.workers| && TokenOf(s.workers[w]) == Some(id)
  {
    ReachableInv(s);
    hide RecordsOk, DownOk;
  }

  // ---------------------------------------------------------------- terminal records

  predicate Holds(wk: Worker, id: Id) {
    (wk.Copied? || wk.Executing? || wk.Finished?) && wk.job.id == id
  }

  /** Nobody holds a copy of this record that could still be written back. */
  predicate NoCopies(s: State, id: Id) {
    && (forall k :: k in s.cancels ==> s.cancels[k].id != id)
    && (forall w :: 0 <= w < |s.workers| ==> !Holds(s.workers[w], id))
  }

  predicate WritesStore(e: Event) {
    e.Start? || e.Submit? || e.RejectBusy? || e.CancelSave? || e.Reap? || e.RunStart? || e.RunSave?
  }

  lemma StoreUntouched(s: State, e: Event)
    requires Enabled(s, e) && !WritesStore(e)
    ensures Apply(s, e).store == s.store
  {
  }

  lemma SavesElsewhere(s: State, e: Event, id: Id)
    requires Enabled(s, e) && (e.CancelSave? || e.RunStart? || e.RunSave?) && id in s.store && NoCopies(s, id)
    ensures id in Apply(s, e).store && Apply(s, e).store[id] == s.store[id]
  {
    if !e.CancelSave? { assert !Holds(s.workers[e.worker], id); }
  }

  lemma SweepsKeep(s: State, e: Event, id: Id)
    requires Enabled(s, e) && (e.Start? || e.Submit? || e.RejectBusy? || e.Reap?) && id in s.store
    requires Terminal(s.store[id].status) && id !in s.submits && id in s.origin
    ensures var t := Apply(s, e);
      (id in t.store ==> t.store[id] == s.store[id]) && (id !in t.store ==> e == Reap)
  {
  }

  lemma TerminalStored(s: State, e: Event, id: Id)
    requires RecordsOk(s) && Enabled(s, e) && id in s.store && Terminal(s.store[id].status) && NoCopies(s, id)
    requires id !in s.submits
    ensures var t := Apply(s, e);
      (id in t.store ==> t.store[id] == s.store[id]) && (id !in t.store ==> e == Reap)
  {
    hide Apply, Enabled, WorkerOk, NoCopies;
    assert RecordOk(s.store[id], s.origin, s.ttl) && s.store[id].id == id;
    if !WritesStore(e) {
      StoreUntouched(s, e);
    } else if e.CancelSave? || e.RunStart? || e.RunSave? {
      SavesElsewhere(s, e, id);
    } else {
      SweepsKeep(s, e, id);
    }
  }

  lemma NoNewCancels(s: State, e: Event, id: Id)
    requires RecordsOk(s) && Enabled(s, e) && id in s.store && Terminal(s.store[id].status) && NoCopies(s, id)
    ensures forall k :: k in Apply(s, e).cancels ==> Apply(s, e).cancels[k].id != id
  {
    hide WorkerOk, RecordOk, Holds;
    if e.CancelGet? {
      assert s.store[e.id].id == e.id;
    } else {
      hide RecordsOk, Apply;
      NoCancelTaken(s, e);
    }
  }

  lemma NoCancelTaken(s: State, e: Event)
    requires Enabled(s, e) && !e.CancelGet?
    ensures forall k :: k in Apply(s, e).cancels ==> k in s.cancels && Apply(s, e).cancels[k] == s.cancels[k]
  {
  }

  /** Only reading the store gives a worker a record it did not hold. */
  lemma HeldBefore(s: State, e: Event, id: Id, w: nat)
    requires Enabled(s, e) && !e.RunGet? && w < |Apply(s, e).workers| && Holds(Apply(s, e).workers[w], id)
    ensures w < |s.workers| && Holds(s.workers[w], id)
  {
  }

  lemma ReadBefore(s: State, v: nat, id: Id, w: nat)
    requires Enabled(s, RunGet(v)) && w < |s.workers| && Holds(Apply(s, RunGet(v)).workers[w], id)
    requires forall x :: x in s.store ==> s.store[x].id == x
    ensures Holds(s.workers[w], id) || (id in s.store && s.store[id].status == Queued)
  {
  }

  lemma NoNewHolders(s: State, e: Event, id: Id, w: nat)
    requires RecordsOk(s) && Enabled(s, e) && id in s.store && Terminal(s.store[id].status) && NoCopies(s, id)
    requires w < |Apply(s, e).workers|
    ensures !Holds(Apply(s, e).workers[w], id)
  {
    hide Apply, WorkerOk, RecordOk;
    if Holds(Apply(s, e).workers[w], id) {
      if e.RunGet? {
        SameCount(s, e);
        ReadBefore(s, e.worker, id, w);
      } else {
        HeldBefore(s, e, id, w);
      }
    }
  }

  lemma SameCount(s: State, e: Event)
    requires Enabled(s, e)
    ensures |Apply(s, e).workers| == |s.workers|
  {
  }

  /** A terminal record of which no copy is out changes only by being reaped, and no copy
      of it can be taken any more (a submit still deciding whether to roll back counts as one). */
  lemma TerminalStays(s: State, e: Event, id: Id)
    requires Reachable(s) && Enabled(s, e) && id in s.store && Terminal(s.store[id].status) && NoCopies(s, id)
    requires id !in s.submits
    ensures var t := Apply(s, e);
      NoCopies(t, id) && (id in t.store ==> t.store[id] == s.store[id]) && (id !in t.store ==> e == Reap)
  {
    hide Apply, Enabled;
    ReachableInv(s);
    hide RecordsOk, TokensOk, PlacesOk, DownOk, Reachable;
    TerminalStored(s, e, id);
    NoNewCancels(s, e, id);
    forall w | 0 <= w < |Apply(s, e).workers| ensures !Holds(Apply(s, e).workers[w], id) { NoNewHolders(s, e, id, w); }
  }

  /** A whole Cancel call with nothing in between. */
  ghost function AfterCancel(s: State, k: nat, id: Id): (r: State)
    requires s.up && id in s.store && !Terminal(s.store[id].status) && k !in s.cancels
  {
    Apply(Apply(s, CancelGet(k, id)), CancelSave(k))
  }

  /** With a copy out it does change: whenever a worker is executing a job, cancelling that
      job and then letting the worker finish takes the record from canceled to succeeded. */
  lemma CancelIsOverwritten(s: State, w: nat, k: nat, id: Id, s1: State)
    requires Inv(s) && s.up && At(s, w) && s.workers[w].Executing? && s.workers[w].job.id == id
    requires id in s.store && !Terminal(s.store[id].status) && k !in s.cancels
    requires s1 == AfterCancel(s, k, id)
    ensures id in s1.store && s1.store[id].status == Canceled
    ensures Enabled(s1, Finish(w, true, ""))
    ensures var s2 := Apply(s1, Finish(w, true, ""));
      Enabled(s2, RunSave(w)) && id in Apply(s2, RunSave(w)).store
      && Apply(s2, RunSave(w)).store[id].status == Succeeded
  {
    hide TokensOk, PlacesOk, DownOk, RecordOk, WorkerOk;
    assert s.store[id].id == id;
  }

  lemma {:induction false} RunSnoc(s: State, es: seq<Event>, e: Event)
    requires Run(s, es).Some? && Enabled(Run(s, es).value, e)
    ensures Run(s, es + [e]) == Some(Apply(Run(s, es).value, e))
    decreases |es|
  {
    hide Apply, Enabled;
    if |es| == 0 {
      assert es + [e] == [e] && [e][1..] == [];
      assert Run(Apply(s, e), []) == Some(Apply(s, e));
    } else {
      assert (es + [e])[1..] == es[1..] + [e];
      RunSnoc(Apply(s, es[0]), es[1..], e);
    }
  }

  lemma StepReachable(s: State, e: Event)
    requires Reachable(s) && Enabled(s, e)
    ensures Reachable(Apply(s, e))
  {
    hide Apply, Enabled, Init;
    var capacity, ttl, workers, es :| Run(Init(capacity, ttl, workers), es) == Some(s);
    RunSnoc(Init(capacity, ttl, workers), es, e);
  }

  lemma QueuedExample() returns (s: State)
    ensures Reachable(s) && s.up && s.workers == [Idle] && s.queue == [7] && s.cancels == map[]
    ensures s.store == map[7 := NewJob(7, "sign", "request", 0)]
  {
    var s0 := Init(1, 60, 1);
    assert Run(s0, []) == Some(s0);
    assert Reachable(s0);
    var s1 := Apply(s0, Start([]));
    StepReachable(s0, Start([]));
    var s2 := Apply(s1, Submit(7, "sign", "request"));
    StepReachable(s1, Submit(7, "sign", "request"));
    s := Apply(s2, Enqueue(7));
    StepReachable(s2, Enqueue(7));
    hide Reachable;
    assert s.queue == [7];
    assert s.workers == [Idle];
  }

  /** Such a state is reachable. */
  lemma ExecutingExample() returns (s: State)
    ensures Reachable(s) && s.up && At(s, 0) && s.workers[0].Executing? && s.workers[0].job.id == 7
    ensures 7 in s.store && s.store[7].status == Running && 0 !in s.cancels
  {
    hide Reachable;
    var s0 := QueuedExample();
    StepReachable(s0, Pick(0));
    var s1 := Apply(s0, Pick(0));
    StepReachable(s1, RunGet(0));
    var s2 := Apply(s1, RunGet(0));
    StepReachable(s2, RunStart(0));
    s := Apply(s2, RunStart(0));
  }
}
