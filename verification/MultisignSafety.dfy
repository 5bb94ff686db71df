/**
 What every run of the multi-signature service keeps: completion means distinct
 people met distinct requirements, signatures are never dropped, and the stored
 container names exactly the people recorded.
 */
module MultisignSafety {
  import opened Prelude
  import opened Multisign

  // ---------------------------------------------------------------- the list of signatures

  /** A signature that fulfils a requirement matches it. */
  predicate Earned(required: seq<Required>, c: Signature) {
    c.satisfies == -1 || (0 <= c.satisfies < |required| && Matches(required[c.satisfies], c.who))
  }

  /** No requirement is fulfilled twice. */
  predicate OneEach(collected: seq<Signature>) {
    forall i, j :: 0 <= i < j < |collected| && collected[i].satisfies >= 0 ==>
      collected[i].satisfies != collected[j].satisfies
  }

  predicate Good(required: seq<Required>, collected: seq<Signature>) {
    OneEach(collected) && forall i :: 0 <= i < |collected| ==> Earned(required, collected[i])
  }

  lemma RecordGood(required: seq<Required>, collected: seq<Signature>, s: Signer, now: int)
    requires Good(required, collected)
    ensures Good(required, collected + [Recorded(required, collected, s, now)])
  {
    hide Matches;
    var rec := Recorded(required, collected, s, now);
    var all := collected + [rec];
    assert Earned(required, rec);
    assert forall i :: 0 <= i < |collected| ==> Satisfied(collected, collected[i].satisfies);
  }

  lemma IdsSnoc(collected: seq<Signature>, c: Signature)
    ensures Ids(collected + [c]) == Ids(collected) + {IdentityOf(c.who)}
  {
    hide IdentityOf;
    assert forall x :: x in collected + [c] <==> x in collected || x == c;
    assert c in collected + [c];
  }

  lemma SignerIdsCons(signers: seq<Signer>)
    requires |signers| > 0
    ensures SignerIds(signers) == {IdentityOf(signers[0].who)} + SignerIds(signers[1..])
  {
    hide IdentityOf;
    assert signers == [signers[0]] + signers[1..];
    assert forall x :: x in signers <==> x == signers[0] || x in signers[1..];
  }

  lemma DistinctSnoc(collected: seq<Signature>, c: Signature)
    ensures Distinct(collected + [c]) <==> Distinct(collected) && IdentityOf(c.who) !in Ids(collected)
  {
    hide IdentityOf;
    var all := collected + [c];
    assert forall i :: 0 <= i < |collected| ==> all[i] == collected[i];
    if Distinct(collected) && IdentityOf(c.who) !in Ids(collected) {
      assert forall i :: 0 <= i < |collected| ==> collected[i] in collected;
    }
    if Distinct(all) {
      forall x | x in collected ensures IdentityOf(x.who) != IdentityOf(c.who) {
        var i :| 0 <= i < |collected| && collected[i] == x;
        assert all[i] == x && all[|collected|] == c;
      }
      forall i, j | 0 <= i < j < |collected| ensures IdentityOf(collected[i].who) != IdentityOf(collected[j].who) {
        assert all[i] == collected[i] && all[j] == collected[j];
      }
    }
  }

  /** What a submitted container does to the list when it is accepted. */
  lemma {:induction false} AbsorbedKeeps(required: seq<Required>, collected: seq<Signature>, signers: seq<Signer>,
                                         now: int)
    requires Good(required, collected) && Absorbed(required, collected, signers, now).Ok?
    ensures var after := Absorbed(required, collected, signers, now).value;
      && collected <= after && Good(required, after)
      && Ids(after) == Ids(collected) + SignerIds(signers)
      && (Distinct(after) <==> Distinct(collected))
      && (|required| > 0 ==> forall i :: |collected| <= i < |after| ==> after[i].satisfies >= 0)
    decreases |signers|
  {
    hide IdentityOf, Ids, SignerIds, Distinct, Good, Recorded;
    if |signers| > 0 {
      SignerIdsCons(signers);
      if IdentityOf(signers[0].who) in Ids(collected) {
        AbsorbedKeeps(required, collected, signers[1..], now);
      } else {
        var rec := Recorded(required, collected, signers[0], now);
        assert rec.who == signers[0].who by { RecordedWho(required, collected, signers[0], now); }
        RecordGood(required, collected, signers[0], now);
        IdsSnoc(collected, rec);
        DistinctSnoc(collected, rec);
        AbsorbedKeeps(required, collected + [rec], signers[1..], now);
        var after := Absorbed(required, collected, signers, now).value;
        assert after[|collected|] == (collected + [rec])[|collected|];
      }
    } else {
      NoSigners(signers);
    }
  }

  lemma NoSigners(signers: seq<Signer>)
    requires |signers| == 0
    ensures SignerIds(signers) == {} && DistinctSigners(signers)
  {
  }

  lemma RecordedWho(required: seq<Required>, collected: seq<Signature>, s: Signer, now: int)
    ensures Recorded(required, collected, s, now).who == s.who
  {
  }

  /** The seed container's people are recorded one by one, duplicates included. */
  lemma {:induction false} SeededKeeps(required: seq<Required>, collected: seq<Signature>, signers: seq<Signer>,
                                       now: int)
    requires Good(required, collected)
    ensures var after := Seeded(required, collected, signers, now);
      && collected <= after && Good(required, after) && |after| == |collected| + |signers|
      && (forall i :: 0 <= i < |signers| ==> after[|collected| + i].who == signers[i].who)
    decreases |signers|
  {
    hide Good, Recorded;
    if |signers| > 0 {
      var rec := Recorded(required, collected, signers[0], now);
      RecordedWho(required, collected, signers[0], now);
      RecordGood(required, collected, signers[0], now);
      SeededKeeps(required, collected + [rec], signers[1..], now);
      var after := Seeded(required, collected, signers, now);
      assert after[|collected|] == (collected + [rec])[|collected|];
      forall i | 0 <= i < |signers| ensures after[|collected| + i].who == signers[i].who {
        if i > 0 { assert after[|collected| + 1 + (i - 1)].who == signers[1..][i - 1].who; }
      }
    }
  }

  lemma SameWho(collected: seq<Signature>, signers: seq<Signer>)
    requires |collected| == |signers| && forall i :: 0 <= i < |signers| ==> collected[i].who == signers[i].who
    ensures Ids(collected) == SignerIds(signers) && (Distinct(collected) <==> DistinctSigners(signers))
  {
    hide IdentityOf;
    forall x | x in Ids(collected) ensures x in SignerIds(signers) {
      var i :| 0 <= i < |collected| && IdentityOf(collected[i].who) == x;
      assert signers[i] in signers;
    }
    forall x | x in SignerIds(signers) ensures x in Ids(collected) {
      var i :| 0 <= i < |signers| && IdentityOf(signers[i].who) == x;
      assert collected[i] in collected;
    }
  }

  // ---------------------------------------------------------------- one session

  /** The seed the session was created with decides whether all its people are different. */
  ghost predicate SessionInv(read: Reader, s: Session, seed: seq<Signer>) {
    && Good(s.required, s.collected)
    && (Distinct(s.collected) <==> DistinctSigners(seed))
    && (s.status == Complete <==> Met(s.required, s.minSigners, s.collected))
    && ((s.collected == [] && s.container == []) || Ids(s.collected) == SignerIds(read(s.document, s.container)))
  }

  function SeedOf(read: Reader, req: Request): (r: seq<Signer>) {
    var format := if req.document.format == "" then "cms" else req.document.format;
    if |req.container| == 0 then [] else read(req.document.(format := format), req.container)
  }

  lemma CreatedInv(read: Reader, defaultTtl: int, req: Request, check: Check, now: int)
    requires Created(read, defaultTtl, req, check, now).Ok?
    ensures SessionInv(read, Created(read, defaultTtl, req, check, now).value, SeedOf(read, req))
  {
    hide IdentityOf, Matches, Seeded, Met, Ids, SignerIds, Good, Distinct, DistinctSigners, Empty, KnownFormat;
    NothingYet(req.required);
    UnmetAtFirst(req.required, req.minSigners);
    if |req.container| > 0 {
      SeedInv(req.required, SeedOf(read, req), now);
    }
  }

  lemma UnmetAtFirst(required: seq<Required>, minSigners: int)
    requires |required| > 0 || minSigners > 0
    ensures !Met(required, minSigners, [])
  {
    if |required| > 0 { assert !Satisfied([], 0); }
  }

  lemma NothingYet(required: seq<Required>)
    ensures Good(required, []) && Distinct([]) && DistinctSigners([])
  {
  }

  lemma SeedInv(required: seq<Required>, seed: seq<Signer>, now: int)
    ensures var after := Seeded(required, [], seed, now);
      Good(required, after) && Ids(after) == SignerIds(seed) && (Distinct(after) <==> DistinctSigners(seed))
  {
    hide IdentityOf, Matches, Ids, SignerIds, Good, Distinct, DistinctSigners, Seeded;
    NothingYet(required);
    SeededKeeps(required, [], seed, now);
    var after := Seeded(required, [], seed, now);
    forall i | 0 <= i < |seed| ensures after[i].who == seed[i].who { assert after[0 + i].who == seed[i].who; }
    SameWho(after, seed);
  }

  lemma AgedInv(read: Reader, s: Session, seed: seq<Signer>, now: int)
    requires SessionInv(read, s, seed)
    ensures SessionInv(read, Aged(s, now), seed)
  {
    hide Good, Distinct, DistinctSigners, Met, Ids, SignerIds;
  }

  /** An accepted submission keeps everything collected, adds somebody, and stores a container
      that names exactly the recorded people. */
  lemma SubmittedInv(read: Reader, s: Session, seed: seq<Signer>, container: Bytes, check: Check, now: int)
    requires SessionInv(read, s, seed) && Submitted(read, s, container, check, now).Ok?
    ensures var t := Submitted(read, s, container, check, now).value;
      SessionInv(read, t, seed) && s.collected < t.collected && t.container == container && s.status == Pending
  {
    hide Good, Distinct, DistinctSigners, Met, Ids, SignerIds, Absorbed;
    AbsorbedKeeps(s.required, s.collected, read(s.document, container), now);
    var after := Absorbed(s.required, s.collected, read(s.document, container), now).value;
    assert Ids(after) == SignerIds(read(s.document, container));
  }

  // ---------------------------------------------------------------- runs

  /** The store, and the seed of every session ever opened. */
  datatype State = State(store: Store, seeds: map<string, seq<Signer>>)

  /** New sessions take identifiers never used before. */
  predicate Enabled(s: State, op: Op) { op.Create? ==> op.id !in s.seeds }

  function Next(read: Reader, ttl: int, s: State, op: Op): (t: State) {
    State(StepStore(read, ttl, s.store, op), if op.Create? then s.seeds[op.id := SeedOf(read, op.request)] else s.seeds)
  }

  function Run(read: Reader, ttl: int, s: State, ops: seq<Op>): (t: State) {
    if |ops| == 0 then s else Next(read, ttl, Run(read, ttl, s, ops[..|ops| - 1]), ops[|ops| - 1])
  }

  predicate Legal(read: Reader, ttl: int, s: State, ops: seq<Op>) {
    |ops| > 0 ==>
      var before := ops[..|ops| - 1]; Legal(read, ttl, s, before) && Enabled(Run(read, ttl, s, before), ops[|ops| - 1])
  }

  ghost predicate Inv(read: Reader, s: State) {
    && s.store.Keys <= s.seeds.Keys
    && forall id <- s.store :: SessionInv(read, s.store[id], s.seeds[id])
  }

  lemma StepInv(read: Reader, ttl: int, s: State, op: Op)
    requires Inv(read, s) && Enabled(s, op)
    ensures Inv(read, Next(read, ttl, s, op))
  {
    hide SessionInv, Created, Submitted, Aged;
    match op
    case Create(id, req, check, now) =>
      if Created(read, ttl, req, check, now).Ok? { CreatedInv(read, ttl, req, check, now); }
    case Get(id, now) =>
      if id in s.store { AgedInv(read, s.store[id], s.seeds[id], now); }
    case Submit(id, container, check, now, later) =>
      if id in s.store {
        AgedInv(read, s.store[id], s.seeds[id], now);
        var aged := Aged(s.store[id], now);
        if Submitted(read, aged, container, check, later).Ok? {
          SubmittedInv(read, aged, s.seeds[id], container, check, later);
        }
      }
    case Cancel(id) =>
  }

  lemma {:induction false} RunInv(read: Reader, ttl: int, ops: seq<Op>)
    requires Legal(read, ttl, State(map[], map[]), ops)
    ensures Inv(read, Run(read, ttl, State(map[], map[]), ops))
  {
    hide Next, SessionInv;
    if |ops| > 0 {
      RunInv(read, ttl, ops[..|ops| - 1]);
      StepInv(read, ttl, Run(read, ttl, State(map[], map[]), ops[..|ops| - 1]), ops[|ops| - 1]);
    }
  }

  // ---------------------------------------------------------------- what completion means

  /** One recorded signature for each requirement: it matches, and the people are all different. */
  ghost predicate Assignment(s: Session, pick: seq<nat>) {
    && |pick| == |s.required|
    && (forall i :: 0 <= i < |pick| ==> pick[i] < |s.collected| && Matches(s.required[i], s.collected[pick[i]].who))
    && (forall i, j :: 0 <= i < j < |pick| ==>
      IdentityOf(s.collected[pick[i]].who) != IdentityOf(s.collected[pick[j]].who))
  }

  ghost predicate TrulyComplete(s: Session) {
    if |s.required| > 0 then exists pick: seq<nat> :: Assignment(s, pick) else |Ids(s.collected)| >= s.minSigners
  }

  /** There are as many people as signatures exactly when nobody signed twice. */
  lemma {:induction false} DistinctCount(collected: seq<Signature>)
    ensures |Ids(collected)| <= |collected|
    ensures |Ids(collected)| == |collected| <==> Distinct(collected)
  {
    hide IdentityOf, Ids, Distinct;
    if |collected| > 0 {
      var before, c := collected[..|collected| - 1], collected[|collected| - 1];
      assert collected == before + [c];
      DistinctSnoc(before, c);
      IdsSnoc(before, c);
      DistinctCount(before);
    } else {
      NoIds(collected);
      NothingYet([]);
    }
  }

  lemma NoIds(collected: seq<Signature>)
    requires |collected| == 0
    ensures Ids(collected) == {}
  {
  }

  lemma PickPeople(s: Session)
    requires Good(s.required, s.collected) && Distinct(s.collected) && |s.required| > 0
    requires Met(s.required, s.minSigners, s.collected)
    ensures exists pick: seq<nat> :: Assignment(s, pick)
  {
    hide IdentityOf, Matches;
    var pick := seq(|s.required|, (i: nat) requires i < |s.required| => Holder(s.required, s.collected, i));
    forall i, j | 0 <= i < j < |pick|
      ensures IdentityOf(s.collected[pick[i]].who) != IdentityOf(s.collected[pick[j]].who)
    {
      assert s.collected[pick[i]].satisfies == i && s.collected[pick[j]].satisfies == j;
    }
    forall i | 0 <= i < |pick| ensures Matches(s.required[i], s.collected[pick[i]].who) {
      assert Earned(s.required, s.collected[pick[i]]);
    }
    assert Assignment(s, pick);
  }

  ghost function Holder(required: seq<Required>, collected: seq<Signature>, i: nat): (k: nat)
    requires |required| > 0 && i < |required| && Met(required, 0, collected)
    ensures k < |collected| && collected[k].satisfies == i
  {
    assert Satisfied(collected, i);
    var k: nat :| k < |collected| && collected[k].satisfies == i;
    k
  }

  /** In every run: a session reported complete, whose seed named no person twice, has a
      different person for every requirement, or enough different people. Its container names
      exactly the people recorded. */
  lemma CompletionIsSound(read: Reader, ttl: int, ops: seq<Op>, id: string)
    requires Legal(read, ttl, State(map[], map[]), ops)
    requires var t := Run(read, ttl, State(map[], map[]), ops); id in t.store && t.store[id].status == Complete
    ensures var t := Run(read, ttl, State(map[], map[]), ops);
      id in t.seeds && (DistinctSigners(t.seeds[id]) ==> TrulyComplete(t.store[id]))
  {
    hide Run, Legal, Distinct, DistinctSigners, Good, Met, Ids;
    RunInv(read, ttl, ops);
    var t := Run(read, ttl, State(map[], map[]), ops);
    var s := t.store[id];
    assert SessionInv(read, s, t.seeds[id]);
    if DistinctSigners(t.seeds[id]) {
      if |s.required| > 0 { PickPeople(s); } else { DistinctCount(s.collected); MetByCount(s); }
    }
  }

  lemma MetByCount(s: Session)
    requires |s.required| == 0 && Met(s.required, s.minSigners, s.collected)
    ensures |s.collected| >= s.minSigners
  {
  }

  /** A round that only counts signatures, opened with a seed: it is complete at once if the seed
      holds enough signatures, and rightly so exactly if it holds enough people. */
  lemma CountRound(read: Reader, ttl: int, req: Request, check: Check, now: int)
    requires |req.required| == 0 && |req.container| > 0 && Created(read, ttl, req, check, now).Ok?
    ensures var s, seed := Created(read, ttl, req, check, now).value, SeedOf(read, req);
      && (s.status == Complete <==> |seed| >= req.minSigners)
      && (TrulyComplete(s) <==> |SignerIds(seed)| >= req.minSigners)
  {
    hide IdentityOf, Matches, Seeded, Ids, SignerIds, Good, Distinct, DistinctSigners, KnownFormat, Empty;
    var seed := SeedOf(read, req);
    NothingYet(req.required);
    SeedInv(req.required, seed, now);
    SeededKeeps(req.required, [], seed, now);
  }

  /** Completion is sound for every round grown from a seed if and only if the seed names nobody
      twice: a round for as many signatures as the seed holds completes at once, and has that
      many people exactly when they are all different. */
  lemma RoundOfSeed(read: Reader, ttl: int, doc: Document, container: Bytes, now: int)
    requires |container| > 0 && KnownFormat(doc.format) && |read(doc, container)| > 0
    ensures var r := Created(read, ttl, Request(doc, container, [], |read(doc, container)|, 0), Passed, now);
      r.Ok? && r.value.status == Complete && (TrulyComplete(r.value) <==> DistinctSigners(read(doc, container)))
  {
    var seed := read(doc, container);
    var req := Request(doc, container, [], |seed|, 0);
    assert doc.(format := doc.format) == doc;
    assert Created(read, ttl, req, Passed, now).Ok? && SeedOf(read, req) == seed;
    hide Created, SeedOf, IdentityOf, Seeded, Ids, SignerIds, Good, Distinct, DistinctSigners, TrulyComplete;
    CountRound(read, ttl, req, Passed, now);
    SeedInv([], seed, now);
    NothingYet([]);
    SeededKeeps([], [], seed, now);
    DistinctCount(Seeded([], [], seed, now));
  }

  /** In every run the stored container names exactly the recorded people, and nobody is
      recorded twice if and only if the seed named nobody twice. */
  lemma RecordedPeople(read: Reader, ttl: int, ops: seq<Op>, id: string)
    requires Legal(read, ttl, State(map[], map[]), ops) && id in Run(read, ttl, State(map[], map[]), ops).store
    ensures var t := Run(read, ttl, State(map[], map[]), ops);
      && id in t.seeds && (Distinct(t.store[id].collected) <==> DistinctSigners(t.seeds[id]))
      && (t.store[id].collected != [] ==>
        Ids(t.store[id].collected) == SignerIds(read(t.store[id].document, t.store[id].container)))
  {
    hide Run, Legal, Distinct, DistinctSigners, Good, Met, Ids, SignerIds;
    RunInv(read, ttl, ops);
    var t := Run(read, ttl, State(map[], map[]), ops);
    assert SessionInv(read, t.store[id], t.seeds[id]);
  }

  // ---------------------------------------------------------------- nothing is lost

  /** What may become of a session: more signatures while pending, and nothing once closed. */
  predicate Progress(s: Session, t: Session) {
    && s.collected <= t.collected && t.required == s.required && t.minSigners == s.minSigners
    && t.document == s.document && t.expiresAt == s.expiresAt
    && (s.status != Pending ==> t == s)
  }

  lemma StepProgress(read: Reader, ttl: int, s: State, op: Op, id: string)
    requires Inv(read, s) && Enabled(s, op) && id in s.store && id in Next(read, ttl, s, op).store
    ensures Progress(s.store[id], Next(read, ttl, s, op).store[id])
  {
    hide SessionInv, Created, Submitted;
    if op.Submit? && op.id == id {
      var aged := Aged(s.store[id], op.now);
      AgedInv(read, s.store[id], s.seeds[id], op.now);
      if Submitted(read, aged, op.container, op.check, op.later).Ok? {
        SubmittedInv(read, aged, s.seeds[id], op.container, op.check, op.later);
        SubmittedSame(read, aged, op.container, op.check, op.later);
      }
    }
  }

  lemma SubmittedSame(read: Reader, s: Session, container: Bytes, check: Check, now: int)
    requires Submitted(read, s, container, check, now).Ok?
    ensures var t := Submitted(read, s, container, check, now).value;
      t.required == s.required && t.minSigners == s.minSigners && t.document == s.document && t.expiresAt == s.expiresAt
  {
    hide Absorbed, Met, Ids, SignerIds;
  }

  /** A used identifier never comes back. */
  lemma StepGone(read: Reader, ttl: int, s: State, op: Op, id: string)
    requires Enabled(s, op) && id in s.seeds && id !in s.store
    ensures id !in Next(read, ttl, s, op).store && id in Next(read, ttl, s, op).seeds
  {
    hide Created, Submitted, Aged;
  }

  /** A canceled session stays gone: over any further run nothing is stored under its identifier. */
  lemma {:induction false} CanceledIsGone(read: Reader, ttl: int, s: State, id: string, ops: seq<Op>)
    requires id in s.seeds && Legal(read, ttl, Next(read, ttl, s, Cancel(id)), ops)
    ensures var t := Run(read, ttl, Next(read, ttl, s, Cancel(id)), ops); id !in t.store && id in t.seeds
  {
    if |ops| > 0 {
      hide Next;
      var before := ops[..|ops| - 1];
      CanceledIsGone(read, ttl, s, id, before);
      StepGone(read, ttl, Run(read, ttl, Next(read, ttl, s, Cancel(id)), before), ops[|ops| - 1], id);
    }
  }

  /** Over any further run collected signatures are only added to, in order, and a complete or
      expired session stays exactly as it is until it is removed. */
  lemma {:induction false} NothingIsLost(read: Reader, ttl: int, s: State, ops: seq<Op>, id: string)
    requires Inv(read, s) && Legal(read, ttl, s, ops) && id in s.store
    ensures var t := Run(read, ttl, s, ops);
      Inv(read, t) && id in t.seeds && (id in t.store ==> Progress(s.store[id], t.store[id]))
  {
    hide Next, SessionInv;
    if |ops| > 0 {
      var before, op := ops[..|ops| - 1], ops[|ops| - 1];
      NothingIsLost(read, ttl, s, before, id);
      var m := Run(read, ttl, s, before);
      StepInv(read, ttl, m, op);
      NextSeeds(read, ttl, m, op);
      if id !in m.store {
        StepGone(read, ttl, m, op, id);
      } else if id in Next(read, ttl, m, op).store {
        StepProgress(read, ttl, m, op, id);
      }
    }
  }

  lemma NextSeeds(read: Reader, ttl: int, s: State, op: Op)
    ensures s.seeds.Keys <= Next(read, ttl, s, op).seeds.Keys
  {
  }

  /** A refused submission leaves the store as it was, but for the deadline having passed. */
  lemma RefusedLeavesNoTrace(read: Reader, ttl: int, store: Store, id: string, container: Bytes, check: Check,
                             now: int, later: int)
    requires id in store && Submitted(read, Aged(store[id], now), container, check, later).Err?
    ensures var after := StepStore(read, ttl, store, Submit(id, container, check, now, later));
      || after == store
      || (&& store[id].status == Pending && store[id].expiresAt <= now
          && after == store[id := store[id].(status := Expired)])
  {
    hide Submitted;
  }
}
