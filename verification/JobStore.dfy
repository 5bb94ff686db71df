/** Job records and the in-memory store whose operations are each atomic. */
module JobStore {
  import opened Prelude

  type Id = nat
  type Time = int

  datatype Status = Queued | Running | Succeeded | Failed | Canceled

  predicate Terminal(st: Status) { st == Succeeded || st == Failed || st == Canceled }

  datatype Job = Job(id: Id, op: string, status: Status, submitted: Time, started: Option<Time>,
                     finished: Option<Time>, expires: Option<Time>, request: Option<string>,
                     result: Option<string>, error: Option<string>)

  type Jobs = map<Id, Job>

  /** A terminal job whose expiry is not after now. */
  predicate Expired(j: Job, now: Time) {
    Terminal(j.status) && j.expires.Some? && j.expires.value <= now
  }

  function Requeued(j: Job): (r: Job) { if j.status == Running then j.(status := Queued) else j }

  /** Every interrupted job is queued again; nothing else changes. */
  function Recovered(m: Jobs): (r: Jobs)
    ensures r.Keys == m.Keys
  {
    map id | id in m :: Requeued(m[id])
  }

  function Reaped(m: Jobs, now: Time): (r: Jobs)
    ensures forall id :: id in r <==> id in m && !Expired(m[id], now)
  {
    map id | id in m && !Expired(m[id], now) :: m[id]
  }

  /** ids lists each non-terminal job exactly once. */
  ghost predicate ListsPending(m: Jobs, ids: seq<Id>) {
    && (forall id :: id in ids <==> id in m && !Terminal(m[id].status))
    && (forall i, j :: 0 <= i < j < |ids| ==> ids[i] != ids[j])
  }

  class MemStore {
    var jobs: Jobs

    constructor ()
      ensures jobs == map[]
    {
      jobs := map[];
    }

    method Create(j: Job) returns (ok: bool)
      modifies this
      ensures ok == (j.id !in old(jobs))
      ensures jobs == if ok then old(jobs)[j.id := j] else old(jobs)
    {
      ok := j.id !in jobs;
      if ok { jobs := jobs[j.id := j]; }
    }

    method Get(id: Id) returns (r: Option<Job>)
      ensures r == if id in jobs then Some(jobs[id]) else None
    {
      r := if id in jobs then Some(jobs[id]) else None;
    }

    method Save(j: Job)
      modifies this
      ensures jobs == old(jobs)[j.id := j]
    {
      jobs := jobs[j.id := j];
    }

    method Delete(id: Id)
      modifies this
      ensures jobs == old(jobs) - {id}
    {
      jobs := jobs - {id};
    }

    /** Resets interrupted jobs and lists every job that still has to run. */
    method Recover() returns (queued: seq<Id>)
      modifies this
      ensures jobs == Recovered(old(jobs))
      ensures ListsPending(old(jobs), queued) && ListsPending(jobs, queued)
    {
      hide HalfRecovered, HalfListed, ListsPending, Recovered;
      queued := [];
      var todo := jobs.Keys;
      RecoverStarts(jobs);
      while todo != {}
        invariant HalfRecovered(old(jobs), jobs, todo) && HalfListed(old(jobs), todo, queued)
        decreases |todo|
      {
        var id :| id in todo;
        RecoverStep(old(jobs), jobs, todo, queued, id);
        todo := todo - {id};
        if jobs[id].status == Running { jobs := jobs[id := jobs[id].(status := Queued)]; }
        if jobs[id].status == Queued { queued := queued + [id]; }
      }
      RecoverEnds(old(jobs), jobs, queued);
    }

    /** Deletes finished jobs past their expiry. */
    method Reap(now: Time) returns (n: nat)
      modifies this
      ensures jobs == Reaped(old(jobs), now)
      ensures n == |old(jobs)| - |jobs|
    {
      n := 0;
      var todo := jobs.Keys;
      while todo != {}
        invariant todo <= jobs.Keys <= old(jobs).Keys
        invariant forall id :: id in old(jobs) && id !in jobs ==> Expired(old(jobs)[id], now)
        invariant forall id :: id in jobs ==> jobs[id] == old(jobs)[id] && (id in todo || !Expired(jobs[id], now))
        invariant n == |old(jobs)| - |jobs|
        decreases |todo|
      {
        var id :| id in todo;
        todo := todo - {id};
        if Expired(jobs[id], now) {
          MapWithout(jobs, id);
          jobs := jobs - {id};
          n := n + 1;
        }
      }
      assert jobs == Reaped(old(jobs), now);
    }
  }

  /** Part way through recovery: the jobs in todo have not been looked at. */
  ghost predicate HalfRecovered(m0: Jobs, m: Jobs, todo: set<Id>) {
    && todo <= m0.Keys == m.Keys
    && forall id :: id in m ==> m[id] == if id in todo then m0[id] else Requeued(m0[id])
  }

  ghost predicate HalfListed(m0: Jobs, todo: set<Id>, q: seq<Id>) {
    && (forall id :: id in q <==> id in m0 && id !in todo && !Terminal(m0[id].status))
    && (forall i, j :: 0 <= i < j < |q| ==> q[i] != q[j])
  }

  lemma RecoverStarts(m: Jobs)
    ensures HalfRecovered(m, m, m.Keys) && HalfListed(m, m.Keys, [])
  {
  }

  lemma RecoverStep(m0: Jobs, m: Jobs, todo: set<Id>, q: seq<Id>, id: Id)
    requires HalfRecovered(m0, m, todo) && HalfListed(m0, todo, q) && id in todo
    ensures id in m && m[id] == m0[id] && id !in q
    ensures HalfRecovered(m0, m[id := Requeued(m[id])], todo - {id})
    ensures m[id].status != Running ==> HalfRecovered(m0, m, todo - {id})
    ensures HalfListed(m0, todo - {id}, if Terminal(m[id].status) then q else q + [id])
  {
  }

  lemma RecoverEnds(m0: Jobs, m: Jobs, q: seq<Id>)
    requires HalfRecovered(m0, m, {}) && HalfListed(m0, {}, q)
    ensures m == Recovered(m0) && ListsPending(m0, q) && ListsPending(m, q)
  {
  }
}
