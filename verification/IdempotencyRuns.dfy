/**
 The idempotency cache over whole runs: concurrent calls, work that finishes late or
 fails, waiters, and a clock that only moves forward. A log of touches records which
 key was moved to the front of the recency list, and when.
 */
module IdempotencyRuns {
  import opened Prelude
  import opened Idempotency

  datatype Waiter = Waiter(key: Key, entry: nat)

  /** A replayed answer without an error, and the entry it came from. */
  datatype Reply = Reply(key: Key, data: Data, entry: nat)

  datatype State = State(core: Core, now: Time, waiting: map<nat, Waiter>,
                         touches: seq<Key>, touched: seq<nat>, replies: seq<Reply>)

  function Init(max: int, ttl: nat, now: Time): (s: State) {
    State(Core(if max < 1 then 1024 else max, ttl, [], map[], []), now, map[], [], [], [])
  }

  datatype Event =
    | Do(caller: nat, key: Key)
    | Finish(entry: nat, ok: bool, data: Data)
    | Release(entry: nat)
    | Wake(caller: nat)
    | Tick(now: Time)

  predicate Enabled(s: State, e: Event) {
    match e
    case Do(caller, key) => CoreOk(s.core) && key != "" && caller !in s.waiting
    case Finish(i, _, _) => i < |s.core.entries| && s.core.entries[i].outcome.Pending?
    case Release(i) => i < |s.core.entries| && !s.core.entries[i].outcome.Pending? && !s.core.entries[i].closed
    case Wake(caller) => caller in s.waiting && s.waiting[caller].entry < |s.core.entries|
                         && s.core.entries[s.waiting[caller].entry].closed
    case Tick(now) => s.now <= now
  }

  function Apply(s: State, e: Event): (r: State)
    requires Enabled(s, e)
  {
    match e
    case Do(caller, key) =>
      var (c, a) := Begin(s.core, key, s.now);
      (match a
       case Hit(data) =>
         var i := s.core.byKey[key];
         s.(core := c, touches := s.touches + [key], replies := s.replies + [Reply(key, data, i)],
            touched := if i < |s.touched| then s.touched[i := |s.touches|] else s.touched)
       case Wait(i) => s.(core := c, waiting := s.waiting[caller := Waiter(key, i)])
       case RunIt(_) => s.(core := c, touches := s.touches + [key], touched := s.touched + [|s.touches|]))
    case Finish(i, ok, data) => s.(core := Publish(s.core, i, ok, data, s.now))
    case Release(i) => s.(core := Close(s.core, i))
    case Wake(caller) =>
      var w := s.waiting[caller];
      var o := s.core.entries[w.entry].outcome;
      s.(waiting := s.waiting - {caller},
         replies := if o.Success? then s.replies + [Reply(w.key, o.data, w.entry)] else s.replies)
    case Tick(now) => s.(now := now)
  }

  function Run(s: State, es: seq<Event>): (r: Option<State>)
    decreases |es|
  {
    if |es| == 0 then Some(s)
    else if !Enabled(s, es[0]) then None
    else Run(Apply(s, es[0]), es[1..])
  }

  // ---------------------------------------------------------------- the invariant

  /** The other keys used after a given touch. */
  function Since(touches: seq<Key>, from: nat, key: Key): (r: set<Key>) {
    set i | from < i < |touches| && touches[i] != key :: touches[i]
  }

  predicate Sorted(lru: seq<nat>, touched: seq<nat>) {
    && (forall i :: 0 <= i < |lru| ==> lru[i] < |touched|)
    && (forall i, j :: 0 <= i < j < |lru| ==> touched[lru[j]] < touched[lru[i]])
  }

  /** The list is in order of last use. */
  predicate Touched(s: State) {
    && |s.touched| == |s.core.entries|
    && (forall e :: 0 <= e < |s.touched| ==>
      s.touched[e] < |s.touches| && s.touches[s.touched[e]] == s.core.entries[e].key)
    && Sorted(s.core.lru, s.touched)
  }

  /** An entry that still counts and is not in the cache was pushed out by max other keys. */
  predicate Accounted(s: State, e: nat)
    requires e < |s.core.entries| && e < |s.touched|
  {
    LiveAt(s.core.entries[e].outcome, s.now) ==>
      Indexed(s.core, e) || |Since(s.touches, s.touched[e], s.core.entries[e].key)| >= s.core.max
  }

  predicate ReplyOk(c: Core, r: Reply) {
    && r.entry < |c.entries| && c.entries[r.entry].key == r.key
    && c.entries[r.entry].outcome.Success? && c.entries[r.entry].outcome.data == r.data
  }

  /** Only a finished entry is closed, and a failed one is never in the cache. */
  predicate EntriesOk(c: Core) {
    && (forall e :: 0 <= e < |c.entries| && c.entries[e].closed ==> !c.entries[e].outcome.Pending?)
    && (forall e :: 0 <= e < |c.entries| && c.entries[e].outcome.Failure? ==> !Indexed(c, e))
  }

  predicate AllAccounted(s: State) {
    |s.touched| == |s.core.entries| && forall e :: 0 <= e < |s.core.entries| ==> Accounted(s, e)
  }

  predicate WaitersOk(s: State) {
    forall w :: w in s.waiting ==>
      s.waiting[w].entry < |s.core.entries| && s.core.entries[s.waiting[w].entry].key == s.waiting[w].key
  }

  predicate RepliesOk(s: State) {
    forall i :: 0 <= i < |s.replies| ==> ReplyOk(s.core, s.replies[i])
  }

  predicate Inv(s: State) {
    && CoreOk(s.core) && |s.core.lru| <= s.core.max && s.core.max >= 1
    && EntriesOk(s.core) && Touched(s) && AllAccounted(s) && WaitersOk(s) && RepliesOk(s)
  }

  // ---------------------------------------------------------------- lemmas about the list

  lemma {:induction false} WithoutSorted(lru: seq<nat>, x: nat, touched: seq<nat>)
    requires Sorted(lru, touched) && Distinct(lru)
    ensures Sorted(Without(lru, x), touched)
  {
    if |lru| > 0 && lru[0] != x {
      var tail := lru[1..];
      WithoutSorted(tail, x, touched);
      WithoutMeaning(tail, x);
      var r := Without(tail, x);
      forall i | 0 <= i < |r| ensures touched[r[i]] < touched[lru[0]] {
        assert r[i] in r;
        var k :| 0 <= k < |tail| && tail[k] == r[i];
        assert lru[k + 1] == r[i];
      }
    }
  }

  lemma EvictOne(c: Core)
    requires CoreOk(c) && |c.lru| <= c.max + 1
    ensures |c.lru| <= c.max ==> Evict(c) == c
    ensures |c.lru| == c.max + 1 ==>
      var back := c.lru[|c.lru| - 1];
      back < |c.entries| && Evict(c) == Remove(c, back) && Evict(c).lru == c.lru[..c.max]
  {
    if |c.lru| > c.max {
      var back := c.lru[|c.lru| - 1];
      assert Distinct(c.lru);
      hide CoreOk, Remove;
      RemoveOk(c, back);
      WithoutLast(c.lru);
      RemoveList(c, back);
      assert |Remove(c, back).lru| <= Remove(c, back).max;
    }
  }

  lemma RemoveList(c: Core, e: nat)
    requires e < |c.entries|
    ensures Remove(c, e).lru == Without(c.lru, e) && Remove(c, e).max == c.max
  {
  }

  lemma SinceGrows(touches: seq<Key>, from: nat, key: Key, k: Key)
    ensures |Since(touches, from, key)| <= |Since(touches + [k], from, key)|
  {
    var a, b := Since(touches, from, key), Since(touches + [k], from, key);
    forall x | x in a ensures x in b {
      var i :| from < i < |touches| && touches[i] != key && touches[i] == x;
      assert (touches + [k])[i] == x;
    }
    SubsetSize(a, b);
  }

  /** The keys of the first n entries of the list. */
  function KeySet(c: Core, n: nat): (r: set<Key>)
    requires CoreOk(c) && n <= |c.lru|
  {
    if n == 0 then {} else
      assert Indexed(c, c.lru[n - 1]);
      KeySet(c, n - 1) + {c.entries[c.lru[n - 1]].key}
  }

  lemma {:induction false} KeySetMember(c: Core, n: nat, k: Key) returns (i: nat)
    requires CoreOk(c) && n <= |c.lru| && k in KeySet(c, n)
    ensures i < n && Indexed(c, c.lru[i]) && c.entries[c.lru[i]].key == k
  {
    assert Indexed(c, c.lru[n - 1]);
    if k == c.entries[c.lru[n - 1]].key { i := n - 1; } else { i := KeySetMember(c, n - 1, k); }
  }

  lemma {:induction false} KeySetSize(c: Core, n: nat)
    requires CoreOk(c) && n <= |c.lru|
    ensures |KeySet(c, n)| == n
  {
    if n > 0 {
      KeySetSize(c, n - 1);
      var last := c.lru[n - 1];
      assert Indexed(c, last);
      var key := c.entries[last].key;
      assert key !in KeySet(c, n - 1) by {
        if key in KeySet(c, n - 1) { var i := KeySetMember(c, n - 1, key); }
      }
    }
  }

  /** The entry at the back of a full list has max other keys in front of it, all used since. */
  lemma PushedOut(c: Core, touches: seq<Key>, touched: seq<nat>)
    requires CoreOk(c) && |c.lru| == c.max + 1 && Sorted(c.lru, touched) && |touched| == |c.entries|
    requires forall e :: 0 <= e < |touched| ==> touched[e] < |touches| && touches[touched[e]] == c.entries[e].key
    ensures var back := c.lru[c.max];
      back < |c.entries| && |Since(touches, touched[back], c.entries[back].key)| >= c.max
  {
    var back := c.lru[c.max];
    assert Indexed(c, back);
    var since := Since(touches, touched[back], c.entries[back].key);
    KeySetSize(c, c.max);
    forall k | k in KeySet(c, c.max) ensures k in since {
      var i := KeySetMember(c, c.max, k);
      var at := touched[c.lru[i]];
      assert touched[back] < at < |touches| && touches[at] == k;
    }
    SubsetSize(KeySet(c, c.max), since);
  }

  // ---------------------------------------------------------------- steps

  /** How the entries may change: a pending one gets an outcome, a finished one only closes. */
  predicate Advances(c: Core, d: Core) {
    && |c.entries| <= |d.entries|
    && (forall e :: 0 <= e < |c.entries| ==> d.entries[e].key == c.entries[e].key)
    && (forall e :: 0 <= e < |c.entries| && !c.entries[e].outcome.Pending? ==>
      d.entries[e].outcome == c.entries[e].outcome)
  }

  /** What waiters and replies point at survives every step. */
  lemma PointersKept(s: State, t: State)
    requires WaitersOk(s) && RepliesOk(s) && Advances(s.core, t.core)
    ensures t.waiting == s.waiting ==> WaitersOk(t)
    ensures forall i :: 0 <= i < |s.replies| ==> ReplyOk(t.core, s.replies[i])
  {
    forall i | 0 <= i < |s.replies| ensures ReplyOk(t.core, s.replies[i]) { assert ReplyOk(s.core, s.replies[i]); }
  }

  /** Steps that touch nothing: whatever counts and is dropped must not count any more. */
  lemma UntouchedStep(s: State, t: State)
    requires Inv(s) && t.touches == s.touches && t.touched == s.touched && s.now <= t.now
    requires CoreOk(t.core) && EntriesOk(t.core) && t.core.max == s.core.max && Advances(s.core, t.core)
    requires |t.core.entries| == |s.core.entries| && |t.core.lru| <= |s.core.lru| && Sorted(t.core.lru, t.touched)
    requires forall e :: 0 <= e < |s.core.entries| && LiveAt(t.core.entries[e].outcome, t.now) ==>
      LiveAt(s.core.entries[e].outcome, s.now) && (Indexed(s.core, e) ==> Indexed(t.core, e))
    requires t.waiting == s.waiting && t.replies == s.replies
    ensures Inv(t)
  {
    hide Since, CoreOk, Sorted, ReplyOk, EntriesOk;
    PointersKept(s, t);
    hide WaitersOk;
    forall e | 0 <= e < |t.core.entries| ensures Accounted(t, e) { assert Accounted(s, e); }
  }

  lemma ReleaseStep(s: State, i: nat)
    requires Inv(s) && Enabled(s, Release(i))
    ensures Inv(Apply(s, Release(i)))
  {
    hide Since, Sorted, AllAccounted, WaitersOk, RepliesOk;
    var t := Apply(s, Release(i));
    var c, d := s.core, t.core;
    assert forall e :: 0 <= e < |c.entries| ==> Indexed(d, e) == Indexed(c, e);
    assert CoreOk(d) by {
      forall j | 0 <= j < |d.lru| ensures Indexed(d, d.lru[j]) { assert Indexed(c, c.lru[j]); }
    }
    hide CoreOk;
    UntouchedStep(s, t);
  }

  lemma SetOutcomeOk(c: Core, i: nat, o: Outcome)
    requires CoreOk(c) && i < |c.entries| && c.entries[i].outcome.Pending? && !c.entries[i].closed
    ensures CoreOk(SetOutcome(c, i, o)) && forall e :: 0 <= e < |c.entries| ==>
      Indexed(SetOutcome(c, i, o), e) == Indexed(c, e)
  {
    var d := SetOutcome(c, i, o);
    forall j | 0 <= j < |d.lru| ensures Indexed(d, d.lru[j]) { assert Indexed(c, c.lru[j]); }
  }

  /** Taking an entry out of the cache leaves the others as they were. */
  lemma RemoveCore(c: Core, i: nat, touched: seq<nat>)
    requires CoreOk(c) && Indexed(c, i) && Sorted(c.lru, touched)
    ensures var d := Remove(c, i);
      && CoreOk(d) && |d.lru| <= |c.lru| && Sorted(d.lru, touched) && !Indexed(d, i)
      && forall e :: 0 <= e < |c.entries| && e != i ==> Indexed(d, e) == Indexed(c, e)
  {
    assert c.byKey[c.entries[i].key] in c.lru;
    assert Distinct(c.lru);
    hide CoreOk, Sorted;
    RemoveOk(c, i);
    WithoutSorted(c.lru, i, touched);
  }

  lemma OutcomeEntries(c: Core, d: Core, i: nat, o: Outcome)
    requires EntriesOk(c) && i < |c.entries| && c.entries[i].outcome.Pending? && !o.Pending?
    requires d.entries == c.entries[i := c.entries[i].(outcome := o)]
    requires forall e :: 0 <= e < |c.entries| && e != i ==> Indexed(d, e) == Indexed(c, e)
    requires o.Failure? ==> !Indexed(d, i)
    ensures EntriesOk(d)
  {
    hide Indexed;
  }

  lemma FinishCore(c: Core, i: nat, ok: bool, data: Data, now: Time, touched: seq<nat>)
    requires CoreOk(c) && EntriesOk(c) && i < |c.entries| && c.entries[i].outcome.Pending? && Sorted(c.lru, touched)
    ensures var d := Publish(c, i, ok, data, now);
      && CoreOk(d) && EntriesOk(d) && |d.lru| <= |c.lru| && Sorted(d.lru, touched)
      && forall e :: 0 <= e < |c.entries| && (ok || e != i) ==> Indexed(d, e) == Indexed(c, e)
  {
    assert !c.entries[i].closed;
    hide CoreOk, Sorted, EntriesOk, Remove;
    var o := if ok then Success(data, now + c.ttl) else Failure(data);
    SetOutcomeOk(c, i, o);
    var m := SetOutcome(c, i, o);
    if !ok && Indexed(c, i) {
      RemoveCore(m, i, touched);
      RemoveKeeps(m, i);
    }
    OutcomeEntries(c, Publish(c, i, ok, data, now), i, o);
  }

  lemma FinishStep(s: State, i: nat, ok: bool, data: Data)
    requires Inv(s) && Enabled(s, Finish(i, ok, data))
    ensures Inv(Apply(s, Finish(i, ok, data)))
  {
    hide CoreOk, Sorted, AllAccounted, WaitersOk, RepliesOk;
    FinishCore(s.core, i, ok, data, s.now, s.touched);
    UntouchedStep(s, Apply(s, Finish(i, ok, data)));
  }

  lemma TickStep(s: State, now: Time)
    requires Inv(s) && Enabled(s, Tick(now))
    ensures Inv(Apply(s, Tick(now)))
  {
    hide Since, CoreOk, Sorted, AllAccounted, WaitersOk, RepliesOk;
    UntouchedStep(s, Apply(s, Tick(now)));
  }

  lemma WakeStep(s: State, caller: nat)
    requires Inv(s) && Enabled(s, Wake(caller))
    ensures Inv(Apply(s, Wake(caller)))
  {
    hide Since, CoreOk, Sorted, EntriesOk;
    var t := Apply(s, Wake(caller));
    forall e | 0 <= e < |t.core.entries| ensures Accounted(t, e) { assert Accounted(s, e); }
    forall i | 0 <= i < |t.replies| ensures ReplyOk(t.core, t.replies[i]) {
      if i < |s.replies| { assert ReplyOk(s.core, s.replies[i]); }
    }
  }

  /** A step that logs one touch: what was accounted for still is. */
  lemma AccountedGrows(s: State, t: State, key: Key)
    requires AllAccounted(s) && t.touches == s.touches + [key] && t.core.max == s.core.max && t.now == s.now
    requires |s.core.entries| <= |t.core.entries| == |t.touched|
    requires forall e :: 0 <= e < |s.core.entries| ==> t.core.entries[e] == s.core.entries[e]
    requires forall e :: 0 <= e < |s.core.entries| && !Indexed(t.core, e) ==> t.touched[e] == s.touched[e]
    requires forall e ::
      && 0 <= e < |s.core.entries| && LiveAt(s.core.entries[e].outcome, s.now)
      && Indexed(s.core, e) && !Indexed(t.core, e) ==>
      |Since(t.touches, t.touched[e], t.core.entries[e].key)| >= t.core.max
    requires forall e :: |s.core.entries| <= e < |t.core.entries| ==> Indexed(t.core, e)
    ensures AllAccounted(t)
  {
    hide Since, Indexed;
    forall e | 0 <= e < |t.core.entries| ensures Accounted(t, e) {
      if e < |s.core.entries| {
        assert Accounted(s, e);
        SinceGrows(s.touches, s.touched[e], s.core.entries[e].key, key);
      }
    }
  }

  lemma HitShape(s: State, caller: nat, key: Key)
    requires Inv(s) && Enabled(s, Do(caller, key)) && HitsAt(s.core, key, s.now)
    ensures var x, t := s.core.byKey[key], Apply(s, Do(caller, key));
      && x in s.core.lru && x < |s.touched| && t.core == s.core.(lru := [x] + Without(s.core.lru, x))
      && t.touches == s.touches + [key] && t.touched == s.touched[x := |s.touches|] && t.now == s.now
      && t.waiting == s.waiting
      && t.replies == s.replies + [Reply(key, s.core.entries[x].outcome.data, x)]
  {
    hide AllAccounted, WaitersOk, RepliesOk, Sorted;
  }

  lemma HitTouched(s: State, t: State, x: nat)
    requires Touched(s) && CoreOk(s.core) && x < |s.touched| && t.core.entries == s.core.entries
    requires t.core.lru == [x] + Without(s.core.lru, x) && t.touches == s.touches + [s.core.entries[x].key]
    requires t.touched == s.touched[x := |s.touches|]
    ensures Touched(t)
  {
    assert Distinct(s.core.lru);
    hide Without, Distinct, Sorted, CoreOk;
    FrontSorted(s, x);
  }

  lemma HitReplies(s: State, t: State, r: Reply)
    requires RepliesOk(s) && t.core.entries == s.core.entries && t.replies == s.replies + [r] && ReplyOk(s.core, r)
    ensures RepliesOk(t)
  {
    forall i | 0 <= i < |t.replies| ensures ReplyOk(t.core, t.replies[i]) {
      if i < |s.replies| { assert ReplyOk(s.core, s.replies[i]); }
    }
  }

  lemma HitAccounted(s: State, t: State, key: Key, x: nat)
    requires AllAccounted(s) && Indexed(s.core, x)
    requires t.core == s.core.(lru := t.core.lru) && t.touches == s.touches + [key] && t.now == s.now
    requires t.touched == s.touched[x := |s.touches|]
    ensures AllAccounted(t)
  {
    hide Since, Accounted;
    AccountedGrows(s, t, key);
  }

  lemma HitEntries(c: Core, d: Core)
    requires EntriesOk(c) && d == c.(lru := d.lru)
    ensures EntriesOk(d)
  {
  }

  lemma HitRest(s: State, t: State, key: Key, x: nat)
    requires Inv(s) && x in s.core.lru && Indexed(s.core, x) && x < |s.touched|
    requires s.core.entries[x].key == key && s.core.entries[x].outcome.Success?
    requires t.core == s.core.(lru := [x] + Without(s.core.lru, x)) && t.now == s.now && t.waiting == s.waiting
    requires t.touches == s.touches + [key] && t.touched == s.touched[x := |s.touches|]
    requires t.replies == s.replies + [Reply(key, s.core.entries[x].outcome.data, x)]
    ensures Inv(t)
  {
    hide CoreOk, Sorted, Since, Without, Touched, Distinct, RepliesOk;
    HitCore(s.core, x);
    HitTouched(s, t, x);
    HitReplies(s, t, t.replies[|s.replies|]);
    HitAccounted(s, t, key, x);
    hide AllAccounted, Indexed;
    assert WaitersOk(t);
    hide WaitersOk;
    assert EntriesOk(t.core) by { HitEntries(s.core, t.core); }
  }

  lemma HitStep(s: State, caller: nat, key: Key)
    requires Inv(s) && Enabled(s, Do(caller, key)) && HitsAt(s.core, key, s.now)
    ensures Inv(Apply(s, Do(caller, key)))
  {
    hide Apply, Begin, AllAccounted, WaitersOk, RepliesOk, Touched, EntriesOk;
    HitShape(s, caller, key);
    assert s.core.entries[s.core.byKey[key]].key == key;
    HitRest(s, Apply(s, Do(caller, key)), key, s.core.byKey[key]);
  }

  lemma HitCore(c: Core, x: nat)
    requires CoreOk(c) && x in c.lru
    ensures CoreOk(c.(lru := [x] + Without(c.lru, x))) && |Without(c.lru, x)| + 1 == |c.lru|
  {
    WithoutMeaning(c.lru, x);
    var rest := Without(c.lru, x);
    ConsDistinct(x, rest);
    assert forall y :: y in [x] + rest <==> y in c.lru;
    hide CoreOk, Distinct, Without;
    Relisted(c, [x] + rest);
  }

  lemma ConsDistinct(x: nat, s: seq<nat>)
    requires Distinct(s) && x !in s
    ensures Distinct([x] + s)
  {
  }

  /** The list may name the same entries in any order. */
  lemma Relisted(c: Core, l: seq<nat>)
    requires CoreOk(c) && Distinct(l) && forall y :: y in l <==> y in c.lru
    ensures CoreOk(c.(lru := l))
  {
    hide Distinct;
    var d := c.(lru := l);
    forall j | 0 <= j < |l| ensures Indexed(d, l[j]) {
      assert l[j] in c.lru;
      var k :| 0 <= k < |c.lru| && c.lru[k] == l[j];
      assert Indexed(c, c.lru[k]);
    }
  }

  lemma ConsSorted(x: nat, r: seq<nat>, touched: seq<nat>)
    requires Sorted(r, touched) && x < |touched| && forall i :: 0 <= i < |r| ==> touched[r[i]] < touched[x]
    ensures Sorted([x] + r, touched)
  {
    var l := [x] + r;
    assert forall i :: 0 < i < |l| ==> l[i] == r[i - 1];
  }

  lemma SortedFrame(r: seq<nat>, a: seq<nat>, b: seq<nat>)
    requires Sorted(r, a) && |a| <= |b| && forall i :: 0 <= i < |r| ==> b[r[i]] == a[r[i]]
    ensures Sorted(r, b)
  {
  }

  lemma FrontSorted(s: State, x: nat)
    requires Touched(s) && Distinct(s.core.lru) && x < |s.touched|
    ensures Sorted([x] + Without(s.core.lru, x), s.touched[x := |s.touches|])
  {
    var r := Without(s.core.lru, x);
    WithoutMeaning(s.core.lru, x);
    WithoutSorted(s.core.lru, x, s.touched);
    forall i | 0 <= i < |r| ensures r[i] != x && r[i] < |s.touched| { assert r[i] in r; }
    hide Without, Distinct;
    SortedFrame(r, s.touched, s.touched[x := |s.touches|]);
    ConsSorted(x, r, s.touched[x := |s.touches|]);
  }

  /** An entry that is there and still counts is not the one dropped. */
  lemma ClearedFacts(s: State, key: Key)
    requires Inv(s) && !HitsAt(s.core, key, s.now) && !WaitsAt(s.core, key)
    ensures var d := Cleared(s.core, key);
      && Sorted(d.lru, s.touched) && |d.lru| <= s.core.max
      && (forall e :: 0 <= e < |s.core.entries| && Indexed(d, e) ==> Indexed(s.core, e))
      && (forall e :: 0 <= e < |s.core.entries| && Indexed(s.core, e) && s.core.entries[e].key != key ==> Indexed(d, e))
    ensures forall e :: 0 <= e < |s.core.entries| && Indexed(s.core, e) && LiveAt(s.core.entries[e].outcome, s.now) ==>
      s.core.entries[e].key != key
  {
    hide AllAccounted, RepliesOk, WaitersOk, Sorted;
    if key in s.core.byKey {
      var x := s.core.byKey[key];
      assert x in s.core.lru && Indexed(s.core, x) && Distinct(s.core.lru);
      assert !LiveAt(s.core.entries[x].outcome, s.now);
      hide CoreOk, EntriesOk, Distinct;
      RemoveOk(s.core, x);
      RemovedIndex(s.core, x);
      WithoutSorted(s.core.lru, x, s.touched);
    }
  }

  /** Dropping an expired entry and registering the new call, before eviction. */
  lemma Registered(s: State, key: Key) returns (c: Core, touches: seq<Key>, touched: seq<nat>)
    requires Inv(s) && !HitsAt(s.core, key, s.now) && !WaitsAt(s.core, key)
    ensures c == Register(Cleared(s.core, key), key) && CoreOk(c) && |c.lru| <= c.max + 1 && c.max == s.core.max
    ensures touches == s.touches + [key] && touched == s.touched + [|s.touches|] && |touched| == |c.entries|
    ensures forall e :: 0 <= e < |touched| ==> touched[e] < |touches| && touches[touched[e]] == c.entries[e].key
    ensures Sorted(c.lru, touched) && |c.lru| > 0 && c.lru[0] == |s.core.entries|
    ensures c.entries == s.core.entries + [Entry(key, Pending, false)] && Indexed(c, |s.core.entries|)
    ensures forall e :: 0 <= e < |s.core.entries| && Indexed(s.core, e) && LiveAt(s.core.entries[e].outcome, s.now) ==>
      Indexed(c, e)
    ensures forall e :: 0 <= e < |s.core.entries| && Indexed(c, e) ==> Indexed(s.core, e)
  {
    hide AllAccounted, RepliesOk, WaitersOk, EntriesOk, CoreOk, Cleared, Sorted;
    var d := Cleared(s.core, key);
    ClearedFacts(s, key);
    RegisterOk(d, key);
    c, touches, touched := Register(d, key), s.touches + [key], s.touched + [|s.touches|];
    RegisterSorted(d.lru, s.touched, |s.touches|);
  }

  lemma RegisterSorted(lru: seq<nat>, touched: seq<nat>, top: nat)
    requires Sorted(lru, touched) && forall e :: 0 <= e < |touched| ==> touched[e] < top
    ensures Sorted([|touched|] + lru, touched + [top])
  {
    SortedFrame(lru, touched, touched + [top]);
    ConsSorted(|touched|, lru, touched + [top]);
  }

  lemma RunItShape(s: State, caller: nat, key: Key)
    requires Inv(s) && Enabled(s, Do(caller, key)) && !HitsAt(s.core, key, s.now) && !WaitsAt(s.core, key)
    ensures CoreOk(Register(Cleared(s.core, key), key))
    ensures Apply(s, Do(caller, key)) == s.(core := Evict(Register(Cleared(s.core, key), key)),
      touches := s.touches + [key], touched := s.touched + [|s.touches|])
  {
    hide AllAccounted, WaitersOk, RepliesOk, Sorted, CoreOk, Evict, Cleared, EntriesOk;
    RegisterOk(Cleared(s.core, key), key);
  }

  lemma RemovedIndex(c: Core, x: nat)
    requires Indexed(c, x)
    ensures forall e :: 0 <= e < |c.entries| ==> Indexed(Remove(c, x), e) == (Indexed(c, e) && e != x)
  {
    hide Without;
  }

  lemma Trimmed(c: Core, touched: seq<nat>) returns (gone: nat)
    requires CoreOk(c) && |c.lru| <= c.max + 1 && c.max >= 1 && |c.lru| > 0 && Sorted(c.lru, touched)
    ensures var d := Evict(c);
      CoreOk(d) && |d.lru| <= d.max && d.max == c.max && d.entries == c.entries && Sorted(d.lru, touched)
    ensures gone != c.lru[0] && (|c.lru| == c.max + 1 ==> gone == c.lru[c.max])
    ensures |c.lru| <= c.max ==> gone == |c.entries|
    ensures forall e :: 0 <= e < |c.entries| ==> Indexed(Evict(c), e) == (Indexed(c, e) && e != gone)
  {
    hide CoreOk, Sorted, Evict, Without, Indexed, Remove;
    FrontIsThere(c);
    EvictOne(c);
    gone := |c.entries|;
    if |c.lru| == c.max + 1 {
      gone := c.lru[c.max];
      RemoveOk(c, gone);
      RemovedIndex(c, gone);
      TakeSorted(c.lru, c.max, touched);
      RemoveKeeps(c, gone);
    }
  }

  lemma RemoveKeeps(c: Core, e: nat)
    requires e < |c.entries|
    ensures Remove(c, e).entries == c.entries && Remove(c, e).max == c.max
  {
  }

  lemma FrontIsThere(c: Core)
    requires CoreOk(c) && |c.lru| > 0
    ensures c.lru[0] < |c.entries| && Indexed(c, c.lru[|c.lru| - 1]) && c.lru[|c.lru| - 1] in c.lru
    ensures |c.lru| > 1 ==> c.lru[|c.lru| - 1] != c.lru[0]
  {
    assert Indexed(c, c.lru[0]);
  }

  lemma TakeSorted(lru: seq<nat>, n: nat, touched: seq<nat>)
    requires Sorted(lru, touched) && n <= |lru|
    ensures Sorted(lru[..n], touched)
  {
  }

  lemma RunItRest(s: State, t: State, key: Key, c: Core, gone: nat)
    requires Inv(s) && CoreOk(t.core) && t.core.max == s.core.max && |t.core.lru| <= t.core.max
    requires t.core.entries == c.entries == s.core.entries + [Entry(key, Pending, false)]
    requires t.touches == s.touches + [key] && t.touched == s.touched + [|s.touches|] && Sorted(t.core.lru, t.touched)
    requires t.now == s.now && t.waiting == s.waiting && t.replies == s.replies
    requires forall e :: 0 <= e < |c.entries| ==> Indexed(t.core, e) == (Indexed(c, e) && e != gone)
    requires gone != |s.core.entries| && Indexed(c, |s.core.entries|)
    requires gone < |c.entries| ==> |Since(t.touches, t.touched[gone], c.entries[gone].key)| >= t.core.max
    requires forall e :: 0 <= e < |s.core.entries| && Indexed(s.core, e) && LiveAt(s.core.entries[e].outcome, s.now) ==>
      Indexed(c, e)
    requires forall e :: 0 <= e < |s.core.entries| && Indexed(c, e) ==> Indexed(s.core, e)
    ensures Inv(t)
  {
    hide Since, Sorted, CoreOk, Indexed;
    assert EntriesOk(t.core);
    hide EntriesOk;
    AccountedGrows(s, t, key);
    hide AllAccounted;
    PointersKept(s, t);
  }

  lemma RunItStep(s: State, caller: nat, key: Key)
    requires Inv(s) && Enabled(s, Do(caller, key)) && !HitsAt(s.core, key, s.now) && !WaitsAt(s.core, key)
    ensures Inv(Apply(s, Do(caller, key)))
  {
    hide Apply, Begin, AllAccounted, WaitersOk, RepliesOk, EntriesOk, Evict, Cleared, Register, CoreOk, Sorted, Since,
         Indexed;
    var c, touches, touched := Registered(s, key);
    RunItShape(s, caller, key);
    var gone := Trimmed(c, touched);
    if |c.lru| == c.max + 1 { PushedOut(c, touches, touched); }
    RunItRest(s, Apply(s, Do(caller, key)), key, c, gone);
  }

  lemma WaitStep(s: State, caller: nat, key: Key)
    requires Inv(s) && Enabled(s, Do(caller, key)) && WaitsAt(s.core, key)
    ensures Inv(Apply(s, Do(caller, key)))
  {
    hide Since, Sorted, EntriesOk, ReplyOk, Evict;
    var t := Apply(s, Do(caller, key));
    assert t == s.(waiting := s.waiting[caller := Waiter(key, s.core.byKey[key])]);
    assert s.core.byKey[key] < |s.core.entries| && s.core.entries[s.core.byKey[key]].key == key;
    hide Begin, CoreOk;
    forall e | 0 <= e < |t.core.entries| ensures Accounted(t, e) { assert Accounted(s, e); }
  }

  lemma StepInv(s: State, e: Event)
    requires Inv(s) && Enabled(s, e)
    ensures Inv(Apply(s, e))
  {
    hide Inv, Apply, HitsAt, WaitsAt;
    match e
    case Do(caller, key) =>
      if HitsAt(s.core, key, s.now) { HitStep(s, caller, key); }
      else if WaitsAt(s.core, key) { WaitStep(s, caller, key); }
      else { RunItStep(s, caller, key); }
    case Finish(i, ok, data) => FinishStep(s, i, ok, data);
    case Release(i) => ReleaseStep(s, i);
    case Wake(caller) => WakeStep(s, caller);
    case Tick(now) => TickStep(s, now);
  }

  lemma {:induction false} RunInv(s: State, es: seq<Event>)
    requires Inv(s) && Run(s, es).Some?
    ensures Inv(Run(s, es).value)
    decreases |es|
  {
    hide Inv, Apply, Enabled;
    if |es| > 0 {
      StepInv(s, es[0]);
      RunInv(Apply(s, es[0]), es[1..]);
    }
  }

  ghost predicate Reachable(s: State) {
    exists max, ttl, now, es :: Run(Init(max, ttl, now), es) == Some(s)
  }

  lemma InitInv(max: int, ttl: nat, now: Time)
    ensures Inv(Init(max, ttl, now))
  {
  }

  lemma ReachableInv(s: State)
    requires Reachable(s)
    ensures Inv(s)
  {
    hide Inv, Run, Init;
    var max, ttl, now, es :| Run(Init(max, ttl, now), es) == Some(s);
    InitInv(max, ttl, now);
    RunInv(Init(max, ttl, now), es);
  }

  /** Map and list stay in bijection, within the bound, after every critical section. */
  lemma Bounded(s: State)
    requires Reachable(s)
    ensures |s.core.lru| <= s.core.max && |s.core.byKey| == |s.core.lru|
    ensures forall k :: k in s.core.byKey ==> s.core.byKey[k] in s.core.lru
    ensures forall i :: 0 <= i < |s.core.lru| ==> Indexed(s.core, s.core.lru[i])
  {
    ReachableInv(s);
    hide Accounted, ReplyOk, Touched;
    var c := s.core;
    KeySetSize(c, |c.lru|);
    forall k | k in c.byKey ensures k in KeySet(c, |c.lru|) {
      var i :| 0 <= i < |c.lru| && c.lru[i] == c.byKey[k];
      KeySetHas(c, |c.lru|, i);
    }
    forall k | k in KeySet(c, |c.lru|) ensures k in c.byKey { var i := KeySetMember(c, |c.lru|, k); }
    assert c.byKey.Keys == KeySet(c, |c.lru|);
  }

  lemma {:induction false} KeySetHas(c: Core, n: nat, i: nat)
    requires CoreOk(c) && i < n <= |c.lru|
    ensures Indexed(c, c.lru[i]) && c.entries[c.lru[i]].key in KeySet(c, n)
  {
    assert Indexed(c, c.lru[i]);
    if i < n - 1 { KeySetHas(c, n - 1, i); }
  }

  /** At most once: if the work for a key starts again while an earlier run of it is
      unfinished or its success has not expired, then at least max other distinct keys
      were used since that entry was last used. */
  lemma RerunOnlyWhenPushedOut(s: State, caller: nat, key: Key, e: nat)
    requires Reachable(s) && Enabled(s, Do(caller, key)) && Begin(s.core, key, s.now).1.RunIt?
    requires e < |s.core.entries| && s.core.entries[e].key == key && LiveAt(s.core.entries[e].outcome, s.now)
    ensures e < |s.touched| && |Since(s.touches, s.touched[e], key)| >= s.core.max
  {
    ReachableInv(s);
    assert Accounted(s, e);
  }

  /** Every error-free replay returns what an earlier successful run of the same key produced. */
  lemma RepliesAreGenuine(s: State)
    requires Reachable(s)
    ensures forall i :: 0 <= i < |s.replies| ==> ReplyOk(s.core, s.replies[i])
  {
    ReachableInv(s);
  }

  /** A success that is still fresh and still cached is replayed, and never run again. */
  lemma FreshIsReplayed(s: State, caller: nat, key: Key)
    requires Reachable(s) && Enabled(s, Do(caller, key)) && key in s.core.byKey
    requires s.core.byKey[key] < |s.core.entries| && LiveAt(s.core.entries[s.core.byKey[key]].outcome, s.now)
    ensures var a := Begin(s.core, key, s.now).1;
      a == Wait(s.core.byKey[key]) || (a.Hit? && s.core.entries[s.core.byKey[key]].outcome.data == a.data)
  {
    ReachableInv(s);
  }
}
