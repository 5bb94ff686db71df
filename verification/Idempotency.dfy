/**
 The single-flight idempotency cache: a map and a recency list over call entries,
 each Do split into its two critical sections and the work in between.
 */
module Idempotency {
  import opened Prelude

  type Key = string
  type Data = string
  type Time = int

  /** What a call's work came to; the expiry is stamped with a success. */
  datatype Outcome = Pending | Success(data: Data, expiry: Time) | Failure(error: string)

  /** One call: its key, its outcome, and whether its waiters have been released. */
  datatype Entry = Entry(key: Key, outcome: Outcome, closed: bool)

  /** The cache proper. Entries are named by their index; the list has the most recently
      used first. */
  datatype Core = Core(max: nat, ttl: nat, entries: seq<Entry>, byKey: map<Key, nat>, lru: seq<nat>)

  function Without(s: seq<nat>, x: nat): (r: seq<nat>) {
    if |s| == 0 then [] else if s[0] == x then s[1..] else [s[0]] + Without(s[1..], x)
  }

  predicate Distinct(s: seq<nat>) { forall i, j :: 0 <= i < j < |s| ==> s[i] != s[j] }

  /** The map leads from this entry's key to this entry. */
  predicate Indexed(c: Core, e: nat) {
    e < |c.entries| && c.entries[e].key in c.byKey && c.byKey[c.entries[e].key] == e
  }

  /** The map and the list index the same entries, one per key. */
  predicate CoreOk(c: Core) {
    && Distinct(c.lru)
    && (forall i :: 0 <= i < |c.lru| ==> Indexed(c, c.lru[i]))
    && (forall k :: k in c.byKey ==> c.byKey[k] in c.lru)
    && (forall k :: k in c.byKey ==> c.byKey[k] < |c.entries| && c.entries[c.byKey[k]].key == k)
    && (forall k :: k in c.byKey && c.entries[c.byKey[k]].closed ==> c.entries[c.byKey[k]].outcome.Success?)
  }

  function Remove(c: Core, e: nat): (r: Core)
    requires e < |c.entries|
  {
    c.(byKey := c.byKey - {c.entries[e].key}, lru := Without(c.lru, e))
  }

  /** Trim the least recently used entries down to the maximum. */
  function Evict(c: Core): (r: Core)
    requires CoreOk(c)
    decreases |c.lru|
  {
    if |c.lru| <= c.max then c
    else
      var back := c.lru[|c.lru| - 1];
      RemoveOk(c, back);
      Evict(Remove(c, back))
  }

  lemma {:induction false} WithoutMeaning(s: seq<nat>, x: nat)
    requires Distinct(s)
    ensures Distinct(Without(s, x)) && |Without(s, x)| == |s| - (if x in s then 1 else 0)
    ensures forall y :: y in Without(s, x) <==> y in s && y != x
  {
    if |s| > 0 && s[0] != x {
      WithoutMeaning(s[1..], x);
      assert s == [s[0]] + s[1..];
      assert s[0] !in Without(s[1..], x);
    } else if |s| > 0 {
      assert s == [s[0]] + s[1..];
    }
  }

  lemma {:induction false} WithoutLast(s: seq<nat>)
    requires Distinct(s) && |s| > 0
    ensures Without(s, s[|s| - 1]) == s[..|s| - 1]
  {
    if |s| > 1 {
      WithoutLast(s[1..]);
      assert s[1..][..|s| - 2] == s[1..|s| - 1];
      assert s[..|s| - 1] == [s[0]] + s[1..|s| - 1];
    }
  }

  lemma RemoveOk(c: Core, e: nat)
    requires CoreOk(c) && e in c.lru
    ensures e < |c.entries| && CoreOk(Remove(c, e)) && |Remove(c, e).lru| == |c.lru| - 1
  {
    var i :| 0 <= i < |c.lru| && c.lru[i] == e;
    var r := Remove(c, e);
    WithoutMeaning(c.lru, e);
    assert Indexed(c, c.lru[i]);
    forall j | 0 <= j < |r.lru| ensures Indexed(r, r.lru[j]) {
      assert r.lru[j] in r.lru;
      var l :| 0 <= l < |c.lru| && c.lru[l] == r.lru[j];
      assert Indexed(c, c.lru[l]);
    }
  }

  // ---------------------------------------------------------------- the critical sections

  datatype Answer = Hit(data: Data) | Wait(entry: nat) | RunIt(entry: nat)

  predicate LiveAt(o: Outcome, now: Time) { o.Pending? || (o.Success? && now < o.expiry) }

  /** A closed entry that is present and not expired answers at once. */
  predicate HitsAt(c: Core, key: Key, now: Time) {
    key in c.byKey && c.byKey[key] < |c.entries| && c.entries[c.byKey[key]].closed
    && c.entries[c.byKey[key]].outcome.Success? && now < c.entries[c.byKey[key]].outcome.expiry
  }

  predicate WaitsAt(c: Core, key: Key) {
    key in c.byKey && c.byKey[key] < |c.entries| && !c.entries[c.byKey[key]].closed
  }

  /** The state in which a new call is registered: an expired entry is dropped first. */
  function Cleared(c: Core, key: Key): (r: Core)
    requires CoreOk(c)
    ensures CoreOk(r) && key !in r.byKey && r.entries == c.entries && r.max == c.max && r.ttl == c.ttl
  {
    if key in c.byKey then RemoveOk(c, c.byKey[key]); Remove(c, c.byKey[key]) else c
  }

  function Register(c: Core, key: Key): (r: Core)
    requires CoreOk(c) && key !in c.byKey
  {
    c.(entries := c.entries + [Entry(key, Pending, false)], byKey := c.byKey[key := |c.entries|],
       lru := [|c.entries|] + c.lru)
  }

  lemma RegisterOk(c: Core, key: Key)
    requires CoreOk(c) && key !in c.byKey
    ensures CoreOk(Register(c, key))
  {
    var r := Register(c, key);
    forall i | 0 <= i < |r.lru| ensures Indexed(r, r.lru[i]) {
      if i > 0 { assert Indexed(c, c.lru[i - 1]); }
    }
    forall k | k in r.byKey ensures r.byKey[k] in r.lru {
      if k != key { assert c.byKey[k] in c.lru; }
    }
  }

  /** The first critical section: replay, coalesce, or register and run. */
  function Begin(c: Core, key: Key, now: Time): (r: (Core, Answer))
    requires CoreOk(c)
  {
    if HitsAt(c, key, now) then
      var e := c.byKey[key];
      (c.(lru := [e] + Without(c.lru, e)), Hit(c.entries[e].outcome.data))
    else if WaitsAt(c, key) then (c, Wait(c.byKey[key]))
    else
      var d := Cleared(c, key);
      RegisterOk(d, key);
      (Evict(Register(d, key)), RunIt(|c.entries|))
  }

  function SetOutcome(c: Core, e: nat, o: Outcome): (r: Core)
    requires e < |c.entries|
  {
    c.(entries := c.entries[e := c.entries[e].(outcome := o)])
  }

  /** The second critical section: record the outcome; a failure is dropped from the cache,
      unless another call has taken its place. */
  function Publish(c: Core, e: nat, ok: bool, data: Data, now: Time): (r: Core)
    requires e < |c.entries|
  {
    if ok then SetOutcome(c, e, Success(data, now + c.ttl))
    else
      var d := SetOutcome(c, e, Failure(data));
      var key := c.entries[e].key;
      if key in c.byKey && c.byKey[key] == e then Remove(d, e) else d
  }

  function Close(c: Core, e: nat): (r: Core)
    requires e < |c.entries|
  {
    c.(entries := c.entries[e := c.entries[e].(closed := true)])
  }

  // ---------------------------------------------------------------- the cache as an object

  class Cache {
    const max: nat
    const ttl: nat
    var entries: seq<Entry>
    var byKey: map<Key, nat>
    var lru: seq<nat>

    function Model(): (c: Core)
      reads this
    {
      Core(max, ttl, entries, byKey, lru)
    }

    constructor (max: int, ttl: nat)
      ensures Model() == Core(if max < 1 then 1024 else max, ttl, [], map[], []) && CoreOk(Model())
    {
      this.max := if max < 1 then 1024 else max;
      this.ttl := ttl;
      entries, byKey, lru := [], map[], [];
    }

    method RemoveLocked(e: nat)
      requires e < |entries|
      modifies this`byKey, this`lru
      ensures Model() == Remove(old(Model()), e)
    {
      byKey := byKey - {entries[e].key};
      lru := Without(lru, e);
    }

    method EvictLocked()
      requires CoreOk(Model())
      modifies this`byKey, this`lru
      ensures Model() == Evict(old(Model()))
    {
      while |lru| > max
        invariant CoreOk(Model()) && Evict(Model()) == Evict(old(Model()))
        decreases |lru|
      {
        RemoveOk(Model(), lru[|lru| - 1]);
        RemoveLocked(lru[|lru| - 1]);
      }
    }

    /** Do, up to the point where fn runs or the caller waits. */
    method Enter(key: Key, now: Time) returns (a: Answer)
      requires CoreOk(Model())
      modifies this
      ensures (Model(), a) == Begin(old(Model()), key, now)
    {
      if key in byKey {
        var e := byKey[key];
        if entries[e].closed {
          if now < entries[e].outcome.expiry {
            lru := [e] + Without(lru, e);
            return Hit(entries[e].outcome.data);
          }
          RemoveOk(Model(), e);
          RemoveLocked(e);
        } else {
          return Wait(e);
        }
      }
      RegisterOk(Model(), key);
      a := RunIt(|entries|);
      lru := [|entries|] + lru;
      byKey := byKey[key := |entries|];
      entries := entries + [Entry(key, Pending, false)];
      EvictLocked();
    }

    /** Do, once fn has returned (a panic is an error). */
    method Leave(e: nat, ok: bool, data: Data, now: Time)
      requires e < |entries|
      modifies this
      ensures Model() == Publish(old(Model()), e, ok, data, now)
    {
      if !ok {
        entries := entries[e := entries[e].(outcome := Failure(data))];
        var key := entries[e].key;
        if key in byKey && byKey[key] == e { RemoveLocked(e); }
      } else {
        entries := entries[e := entries[e].(outcome := Success(data, now + ttl))];
      }
    }
  }
}
