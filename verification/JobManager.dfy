/**
 The job manager as a transition system over the atomic store: submits, cancels,
 workers, the reaper, recovery and restarts interleave freely, and the copies of a
 record that a goroutine holds between two store operations are part of the state.
 */
module JobManager {
  import opened Prelude
  import opened JobStore

  /** A worker: idle, holding an id off the queue, holding the copy it read, running it,
      or holding the finished record it is about to save. */
  datatype Worker = Idle | Picked(id: Id) | Copied(job: Job) | Executing(job: Job) | Finished(job: Job)

  /** Where the right to run a job is. Auxiliary: updated by every hand-over. */
  datatype Place = InSubmit | InQueue | InBacklog | AtWorker(worker: nat) | Spent

  datatype Origin = Origin(op: string, request: string)

  datatype State = State(capacity: nat, ttl: nat, up: bool, clock: Time, store: Jobs,
                         queue: seq<Id>, backlog: seq<Id>, submits: set<Id>, workers: seq<Worker>,
                         cancels: map<nat, Job>, origin: map<Id, Origin>, place: map<Id, Place>, runs: map<Id, nat>)

  function Init(capacity: nat, ttl: nat, workers: nat): (s: State) {
    State(capacity, ttl, false, 0, map[], [], [], {}, seq(workers, _ => Idle), map[], map[], map[], map[])
  }

  datatype Event =
    | Tick(now: Time)
    | Start(recovered: seq<Id>)
    | Shutdown
    | Submit(id: Id, op: string, request: string)
    | Enqueue(id: Id)
    | RejectBusy(id: Id)
    | Requeue
    | CancelGet(cancel: nat, id: Id)
    | CancelSave(cancel: nat)
    | Reap
    | Pick(worker: nat)
    | RunGet(worker: nat)
    | RunStart(worker: nat)
    | Interrupted(worker: nat)
    | Finish(worker: nat, ok: bool, output: string)
    | RunSave(worker: nat)

  predicate At(s: State, w: nat) { w < |s.workers| }

  ghost predicate Enabled(s: State, e: Event) {
    match e
    case Tick(now) => s.clock <= now
    case Start(ids) => !s.up && ListsPending(Recovered(s.store), ids)
    case Shutdown => s.up
    case Submit(id, _, _) => s.up && id !in s.origin
    case Enqueue(id) => s.up && id in s.submits && |s.queue| < s.capacity
    case RejectBusy(id) => s.up && id in s.submits && |s.queue| >= s.capacity
    case Requeue => s.up && |s.backlog| > 0 && |s.queue| < s.capacity
    case CancelGet(k, id) => s.up && k !in s.cancels && id in s.store && !Terminal(s.store[id].status)
    case CancelSave(k) => s.up && k in s.cancels
    case Reap => s.up
    case Pick(w) => s.up && At(s, w) && s.workers[w] == Idle && |s.queue| > 0
    case RunGet(w) => s.up && At(s, w) && s.workers[w].Picked?
    case RunStart(w) => s.up && At(s, w) && s.workers[w].Copied?
    case Interrupted(w) => s.up && At(s, w) && s.workers[w].Executing?
    case Finish(w, _, _) => s.up && At(s, w) && s.workers[w].Executing?
    case RunSave(w) => s.up && At(s, w) && s.workers[w].Finished?
  }

  function NewJob(id: Id, op: string, request: string, now: Time): (j: Job) {
    Job(id, op, Queued, now, None, None, None, Some(request), None, None)
  }

  /** The payload is scrubbed and the expiry stamped when a job becomes terminal. */
  function Ended(j: Job, st: Status, now: Time, ttl: nat): (r: Job) {
    j.(status := st, finished := Some(now), expires := Some(now + ttl), request := None)
  }

  function SetPlace(s: State, id: Id, p: Place): (r: map<Id, Place>) { s.place[id := p] }

  ghost function Apply(s: State, e: Event): (r: State)
    requires Enabled(s, e)
  {
    match e
    case Tick(now) => s.(clock := now)
    case Start(ids) =>
      s.(up := true, store := Recovered(s.store), backlog := ids,
         place := map id | id in s.origin :: if id in ids then InBacklog else Spent)
    case Shutdown =>
      s.(up := false, queue := [], backlog := [], submits := {}, cancels := map[],
         workers := seq(|s.workers|, _ => Idle),
         place := map id | id in s.origin :: Spent, runs := map id | id in s.origin :: 0)
    case Submit(id, op, request) =>
      s.(store := s.store[id := NewJob(id, op, request, s.clock)], submits := s.submits + {id},
         origin := s.origin[id := Origin(op, request)], place := SetPlace(s, id, InSubmit), runs := s.runs[id := 0])
    case Enqueue(id) =>
      s.(submits := s.submits - {id}, queue := s.queue + [id], place := SetPlace(s, id, InQueue))
    case RejectBusy(id) =>
      s.(submits := s.submits - {id}, store := s.store - {id}, place := SetPlace(s, id, Spent))
    case Requeue =>
      s.(backlog := s.backlog[1..], queue := s.queue + [s.backlog[0]], place := SetPlace(s, s.backlog[0], InQueue))
    case CancelGet(k, id) => s.(cancels := s.cancels[k := s.store[id]])
    case CancelSave(k) =>
      var j := Ended(s.cancels[k], Canceled, s.clock, s.ttl);
      s.(store := s.store[j.id := j], cancels := s.cancels - {k})
    case Reap => s.(store := Reaped(s.store, s.clock))
    case Pick(w) =>
      s.(queue := s.queue[1..], workers := s.workers[w := Picked(s.queue[0])],
         place := SetPlace(s, s.queue[0], AtWorker(w)))
    case RunGet(w) =>
      var id := s.workers[w].id;
      if id in s.store && s.store[id].status == Queued
      then s.(workers := s.workers[w := Copied(s.store[id])])
      else s.(workers := s.workers[w := Idle], place := SetPlace(s, id, Spent))
    case RunStart(w) =>
      var j := s.workers[w].job.(status := Running, started := Some(s.clock));
      s.(store := s.store[j.id := j], workers := s.workers[w := Executing(j)], place := SetPlace(s, j.id, Spent),
         runs := s.runs[j.id := (if j.id in s.runs then s.runs[j.id] else 0) + 1])
    case Interrupted(w) => s.(workers := s.workers[w := Idle])
    case Finish(w, ok, output) =>
      var j := Ended(s.workers[w].job, if ok then Succeeded else Failed, s.clock, s.ttl);
      s.(workers := s.workers[w := Finished(if ok then j.(result := Some(output)) else j.(error := Some(output)))])
    case RunSave(w) =>
      var j := s.workers[w].job;
      s.(store := s.store[j.id := j], workers := s.workers[w := Idle])
  }

  ghost function Run(s: State, es: seq<Event>): (r: Option<State>)
    decreases |es|
  {
    if |es| == 0 then Some(s)
    else if !Enabled(s, es[0]) then None
    else Run(Apply(s, es[0]), es[1..])
  }

  // ---------------------------------------------------------------- the invariant

  /** A record that has not ended holds its original request and no expiry; one that has
      holds no request, and expires exactly ttl after it finished. */
  predicate RecordOk(j: Job, origin: map<Id, Origin>, ttl: nat) {
    && j.id in origin && j.op == origin[j.id].op
    && (!Terminal(j.status) ==> j.request == Some(origin[j.id].request) && j.finished == None && j.expires == None)
    && (Terminal(j.status) ==> j.request == None && j.finished.Some? && j.expires == Some(j.finished.value + ttl))
  }

  predicate WorkerOk(wk: Worker, origin: map<Id, Origin>, ttl: nat) {
    match wk
    case Idle => true
    case Picked(id) => id in origin
    case Copied(j) => RecordOk(j, origin, ttl) && j.status == Queued
    case Executing(j) => RecordOk(j, origin, ttl) && j.status == Running
    case Finished(j) => RecordOk(j, origin, ttl) && Terminal(j.status)
  }

  predicate RecordsOk(s: State) {
    && (forall id :: id in s.store ==> s.store[id].id == id && RecordOk(s.store[id], s.origin, s.ttl))
    && (forall k :: k in s.cancels ==> RecordOk(s.cancels[k], s.origin, s.ttl) && !Terminal(s.cancels[k].status))
    && (forall w :: 0 <= w < |s.workers| ==> WorkerOk(s.workers[w], s.origin, s.ttl))
  }

  /** The job whose right to run this worker holds. */
  function TokenOf(wk: Worker): (r: Option<Id>) {
    match wk case Picked(id) => Some(id) case Copied(j) => Some(j.id) case _ => None
  }

  predicate Distinct(ids: seq<Id>) { forall i, j :: 0 <= i < j < |ids| ==> ids[i] != ids[j] }

  /** Every token is where its place says. */
  predicate TokensOk(s: State) {
    && s.place.Keys == s.origin.Keys && s.runs.Keys == s.origin.Keys
    && Distinct(s.queue) && Distinct(s.backlog)
    && (forall k :: 0 <= k < |s.queue| ==> s.queue[k] in s.place && s.place[s.queue[k]] == InQueue)
    && (forall k :: 0 <= k < |s.backlog| ==> s.backlog[k] in s.place && s.place[s.backlog[k]] == InBacklog)
    && (forall id :: id in s.submits ==> id in s.place && s.place[id] == InSubmit)
    && (forall w :: 0 <= w < |s.workers| && TokenOf(s.workers[w]).Some? ==>
          TokenOf(s.workers[w]).value in s.place && s.place[TokenOf(s.workers[w]).value] == AtWorker(w))
  }

  predicate PlaceOk(s: State, id: Id, p: Place) {
    match p
    case InSubmit => id in s.submits
    case InQueue => id in s.queue
    case InBacklog => id in s.backlog
    case AtWorker(w) => w < |s.workers| && TokenOf(s.workers[w]) == Some(id)
    case Spent => true
  }

  predicate AllPlaced(s: State) {
    forall id :: id in s.place ==> PlaceOk(s, id, s.place[id])
  }

  /** A job that has run in this process life has no token left. */
  predicate RunsOk(s: State) {
    forall id :: id in s.place && id in s.runs ==> s.runs[id] <= 1 && (s.runs[id] == 1 ==> s.place[id] == Spent)
  }

  predicate QueuedPlaced(s: State) {
    s.up ==> forall id :: id in s.store && s.store[id].status == Queued ==> id in s.place && s.place[id] != Spent
  }

  predicate PlacesOk(s: State) { AllPlaced(s) && RunsOk(s) && QueuedPlaced(s) }

  predicate DownOk(s: State) {
    !s.up ==>
      && s.queue == [] && s.backlog == [] && s.submits == {} && s.cancels == map[]
      && (forall w :: 0 <= w < |s.workers| ==> s.workers[w] == Idle)
      && (forall id :: id in s.place ==> s.place[id] == Spent)
      && (forall id :: id in s.runs ==> s.runs[id] == 0)
  }

  predicate Inv(s: State) { RecordsOk(s) && TokensOk(s) && PlacesOk(s) && DownOk(s) }
}
