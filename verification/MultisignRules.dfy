/** What single operations on a signing session do, in plain terms, and what its deadline means. */
module MultisignRules {
  import opened Prelude
  import opened Multisign
  import opened MultisignSafety
  import opened MultisignFit

  // ---------------------------------------------------------------- opening

  predicate Names(r: Required) { r.iin != "" || r.bin != "" || r.role.text != "" }

  /** A session is opened if and only if there is something to sign, somebody to sign it, every
      requirement names somebody, the format is known, and the seed, if any, verifies. */
  lemma CreateExactly(read: Reader, ttl: int, req: Request, check: Check, now: int)
    ensures var f := req.document.format;
      Created(read, ttl, req, check, now).Ok? <==>
        && (req.document.content != [] || req.container != [])
        && (req.required != [] || req.minSigners > 0)
        && (forall i :: 0 <= i < |req.required| ==> Names(req.required[i]))
        && (f == "" || f == "cms" || f == "xml" || f == "wsse")
        && (req.container == [] || check == Passed)
  {
    hide Seeded, Met;
  }

  /** It starts with what was asked for, expires after the lifetime asked for or else the usual
      one, and holds the people of its seed. */
  lemma CreatedWith(read: Reader, ttl: int, req: Request, check: Check, now: int)
    requires Created(read, ttl, req, check, now).Ok?
    ensures var s, f := Created(read, ttl, req, check, now).value, req.document.format;
      && s.document == req.document.(format := if f == "" then "cms" else f)
      && s.container == req.container && s.required == req.required && s.minSigners == req.minSigners
      && s.expiresAt == now + (if req.ttlSeconds > 0 then req.ttlSeconds else ttl)
      && |s.collected| == |SeedOf(read, req)| && s.status != Expired
      && forall i :: 0 <= i < |s.collected| ==> s.collected[i].who == SeedOf(read, req)[i].who
  {
    hide Seeded, Met, Good;
    if req.container != [] {
      var seed := SeedOf(read, req);
      NothingYet(req.required);
      SeededKeeps(req.required, [], seed, now);
      var after := Seeded(req.required, [], seed, now);
      assert forall i :: 0 <= i < |seed| ==> after[0 + i].who == seed[i].who;
    }
  }

  // ---------------------------------------------------------------- signatures

  /** A signature is recorded with the signer's own time if that is known, else the present one. */
  lemma RecordedWith(required: seq<Required>, collected: seq<Signature>, s: Signer, now: int)
    ensures var r := Recorded(required, collected, s, now);
      && r.who == s.who && (s.signedAt.Some? ==> r.signedAt == s.signedAt.value)
      && (s.signedAt.None? ==> r.signedAt == now)
  {
  }

  /** Whoever meets some requirement but finds none open has signed already; whoever meets none
      was not invited. */
  lemma RefusedBecause(required: seq<Required>, p: Person)
    ensures Refusal(required, p) == AlreadySigned <==> exists i :: 0 <= i < |required| && Matches(required[i], p)
    ensures Refusal(required, p) == AlreadySigned || Refusal(required, p) == NotInvited
  {
  }

  /** A person meets a requirement if and only if they agree in everything it names. */
  lemma MeetsExactly(r: Required, p: Person)
    ensures Matches(r, p) <==>
      && (r.iin == "" || p.iin == r.iin) && (r.bin == "" || p.bin == r.bin)
      && (r.role.text == "" || exists role <- p.roles :: role.folded == r.role.folded)
  {
    if role :| role in p.roles && role.folded == r.role.folded {
      var i :| 0 <= i < |p.roles| && p.roles[i] == role;
    }
  }

  /** Requirement i has its signature. */
  predicate Fulfilled(collected: seq<Signature>, i: int) { exists c <- collected :: c.satisfies == i }

  lemma FulfilledMeans(collected: seq<Signature>, i: int)
    ensures Satisfied(collected, i) <==> Fulfilled(collected, i)
  {
    if c :| c in collected && c.satisfies == i {
      var k :| 0 <= k < |collected| && collected[k] == c;
    }
  }

  /** In every run a session is complete if and only if every requirement has its signature, or
      without requirements enough signatures are in. */
  lemma CompleteExactly(read: Reader, ttl: int, ops: seq<Op>, id: string)
    requires Legal(read, ttl, State(map[], map[]), ops) && id in Run(read, ttl, State(map[], map[]), ops).store
    ensures var s := Run(read, ttl, State(map[], map[]), ops).store[id];
      s.status == Complete <==>
        if |s.required| == 0 then |s.collected| >= s.minSigners
        else forall i :: 0 <= i < |s.required| ==> Fulfilled(s.collected, i)
  {
    hide Satisfied, Fulfilled, Run, Legal, Distinct, DistinctSigners, Good, Ids, SignerIds;
    RunInv(read, ttl, ops);
    var s := Run(read, ttl, State(map[], map[]), ops).store[id];
    assert s.status == Complete <==> Met(s.required, s.minSigners, s.collected);
    forall i: int ensures Satisfied(s.collected, i) <==> Fulfilled(s.collected, i) { FulfilledMeans(s.collected, i); }
  }

  // ---------------------------------------------------------------- submitting

  /** The errors of a submission to a session that is not yet past its deadline, in the order in
      which they are looked for, and what an accepted one stores. */
  lemma SubmitAnswers(read: Reader, s: Session, container: Bytes, check: Check, now: int)
    ensures var r, signers := Submitted(read, s, container, check, now), read(s.document, container);
      var missing := exists c <- s.collected :: forall x <- signers :: IdentityOf(x.who) != IdentityOf(c.who);
      && (s.status != Pending ==> r == Err(SessionClosed))
      && (s.status == Pending && check.Refused? ==> r == Err(check.error))
      && (s.status == Pending && check.Passed? && missing ==> r == Err(LostSigner))
      && (s.status == Pending && check.Passed? && !missing ==> r == Judged(s, container, signers, now))
  {
    hide IdentityOf, Absorbed, Met, Newcomers;
    var signers := read(s.document, container);
    NobodyMissing(s.collected, signers);
    if s.status == Pending && check.Passed? && Ids(s.collected) <= SignerIds(signers) {
      SkipsRecorded(s.required, s.collected, signers, now);
      NewcomersNew(Ids(s.collected), signers);
      if Absorbed(s.required, s.collected, signers, now).Ok? {
        Added(s.required, s.collected, Newcomers(Ids(s.collected), signers), now);
      }
    }
  }

  /** The outcome once nobody is missing: whoever is new is taken in or refused, and nobody new is
      an error too. */
  function Judged(s: Session, container: Bytes, signers: seq<Signer>, now: int): (r: Result<Session, Error>) {
    var unknown := Newcomers(Ids(s.collected), signers);
    match Absorbed(s.required, s.collected, unknown, now)
    case Err(e) => Err(e)
    case Ok(collected) =>
      if |unknown| == 0 then Err(NoNewSigner)
      else Ok(s.(container := container, collected := collected,
                 status := if Met(s.required, s.minSigners, collected) then Complete else Pending))
  }

  lemma NobodyMissing(collected: seq<Signature>, signers: seq<Signer>)
    ensures Ids(collected) <= SignerIds(signers) <==>
      !exists c <- collected :: forall x <- signers :: IdentityOf(x.who) != IdentityOf(c.who)
  {
    hide IdentityOf;
    if c :| c in collected && forall x <- signers :: IdentityOf(x.who) != IdentityOf(c.who) {
      assert IdentityOf(c.who) in Ids(collected);
    }
  }

  // ---------------------------------------------------------------- the deadline

  /** At its deadline and after it a pending session expires with the next Get or Submit and is
      otherwise as it was; the submission is refused. Before it, Get changes nothing. */
  lemma DeadlineExactly(read: Reader, ttl: int, store: Store, id: string, container: Bytes, check: Check, now: int,
                        later: int)
    requires id in store && store[id].status == Pending
    ensures var expired := store[id := store[id].(status := Expired)];
      && StepStore(read, ttl, store, Get(id, now)) == (if now >= store[id].expiresAt then expired else store)
      && (now >= store[id].expiresAt ==>
            && StepStore(read, ttl, store, Submit(id, container, check, now, later)) == expired
            && Submitted(read, Aged(store[id], now), container, check, later) == Err(SessionClosed))
      && (now < store[id].expiresAt ==> Aged(store[id], now) == store[id])
  {
    hide Absorbed, Met;
  }

  /** Every submission to this session comes at or after the given time. */
  predicate NoneBefore(ops: seq<Op>, id: string, time: int) {
    forall op <- ops :: op.Submit? && op.id == id ==> time <= op.now
  }

  /** Over any run no submission at or after the deadline adds a signature. */
  lemma {:induction false} NothingAfterDeadline(read: Reader, ttl: int, s: State, ops: seq<Op>, id: string)
    requires Inv(read, s) && Legal(read, ttl, s, ops) && id in s.store && NoneBefore(ops, id, s.store[id].expiresAt)
    ensures var t := Run(read, ttl, s, ops); id in t.store ==> t.store[id].collected == s.store[id].collected
  {
    hide Next, Inv;
    if |ops| > 0 {
      var before, op := ops[..|ops| - 1], ops[|ops| - 1];
      assert forall x <- before :: x in ops;
      NothingAfterDeadline(read, ttl, s, before, id);
      NothingIsLost(read, ttl, s, before, id);
      var m := Run(read, ttl, s, before);
      if id in m.store { LateStep(read, ttl, m, op, id); } else { StepGone(read, ttl, m, op, id); }
    }
  }

  lemma LateStep(read: Reader, ttl: int, s: State, op: Op, id: string)
    requires Inv(read, s) && Enabled(s, op) && id in s.store
    requires op.Submit? && op.id == id ==> s.store[id].expiresAt <= op.now
    ensures var t := Next(read, ttl, s, op); id in t.store ==> t.store[id].collected == s.store[id].collected
  {
    hide Created, Absorbed, Met, SessionInv;
  }
}
