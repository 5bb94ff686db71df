/**
 The cache of OCSP answers and the certificate check that uses it. A cached answer
 lives no longer than its configured time and no longer than the responder promised
 (section 4.2.2.1 of RFC 6960).
 */
module OcspCache {
  import opened Prelude

  type Time = int

  datatype Answer = Answer(revoked: bool, reason: string, revocationTime: Option<Time>, thisUpdate: Option<Time>,
                           nextUpdate: Option<Time>, producedAt: Option<Time>, response: Bytes)

  /** The certificate's fingerprint and the responder asked about it. */
  datatype Key = Key(fingerprint: string, responder: string)

  datatype Entry = Entry(value: Answer, expires: Time, seqNo: nat)

  type Entries = map<Key, Entry>

  datatype Config = Config(ttl: int, revokedTtl: int, maxEntries: int)

  /** An answer as it was accepted, and when. */
  datatype Accepted = Accepted(value: Answer, at: Time)

  function Lifetime(c: Config, v: Answer): (r: int) { if v.revoked then c.revokedTtl else c.ttl }

  function Expiry(c: Config, v: Answer, now: Time): (r: Time)
    ensures r <= now + Lifetime(c, v) && (v.nextUpdate.Some? ==> r <= v.nextUpdate.value)
    ensures r == now + Lifetime(c, v) || v.nextUpdate == Some(r)
  {
    if v.nextUpdate.Some? && v.nextUpdate.value < now + Lifetime(c, v) then v.nextUpdate.value else now + Lifetime(c, v)
  }

  // ---------------------------------------------------------------- eviction

  predicate SubEntries(a: Entries, b: Entries) { a.Keys <= b.Keys && forall k <- a :: a[k] == b[k] }

  predicate Numbered(m: Entries, top: nat) {
    && (forall k <- m :: m[k].seqNo <= top)
    && (forall j, k :: j in m && k in m && j != k ==> m[j].seqNo != m[k].seqNo)
  }

  /** What eviction leaves: nothing goes while there is room; otherwise the expired go, and then
      the oldest of the rest, and no more than needed. */
  ghost predicate Trimmed(before: Entries, after: Entries, now: Time, max: nat) {
    && SubEntries(after, before) && |after| <= max
    && (|before| <= max ==> after == before)
    && (|before| > max ==> forall k <- after :: now < after[k].expires)
    && (forall d, k :: d in before && d !in after && now < before[d].expires && k in after ==>
      before[d].seqNo < after[k].seqNo)
    && (forall d :: d in before && d !in after && now < before[d].expires ==> |after| == max)
  }

  /** The oldest entry of a table that is not empty. */
  method Oldest(m: Entries, top: nat) returns (k: Key)
    requires |m| > 0 && Numbered(m, top)
    ensures k in m && forall j :: j in m && j != k ==> m[k].seqNo < m[j].seqNo
  {
    var todo := m.Keys;
    assert m.Keys != {} by { assert |m| == |m.Keys|; }
    k :| k in m;
    while todo != {}
      invariant todo <= m.Keys && k in m
      invariant forall j :: j in m && j !in todo ==> m[k].seqNo <= m[j].seqNo
      decreases |todo|
    {
      var j :| j in todo;
      todo := todo - {j};
      if m[j].seqNo < m[k].seqNo { k := j; }
    }
  }

  method Purge(m: Entries, now: Time) returns (r: Entries)
    ensures SubEntries(r, m) && forall k :: k in m ==> (k in r <==> now < m[k].expires)
  {
    r := m;
    var todo := m.Keys;
    while todo != {}
      invariant todo <= m.Keys && SubEntries(r, m) && todo <= r.Keys
      invariant forall k :: k in m && k !in todo ==> (k in r <==> now < m[k].expires)
      decreases |todo|
    {
      var k :| k in todo;
      todo := todo - {k};
      if r[k].expires <= now { r := r - {k}; }
    }
  }

  method Evict(m: Entries, top: nat, now: Time, max: nat) returns (r: Entries)
    requires Numbered(m, top) && max > 0
    ensures Trimmed(m, r, now, max)
  {
    if |m| <= max { return m; }
    var live := Purge(m, now);
    StillNumbered(live, m, top);
    r := DropOldest(live, top, max);
    PurgedAndDropped(m, live, r, now, max);
  }

  lemma PurgedAndDropped(m: Entries, live: Entries, r: Entries, now: Time, max: nat)
    requires |m| > max && SubEntries(live, m) && forall k :: k in m ==> (k in live <==> now < m[k].expires)
    requires SubEntries(r, live) && |r| <= max && (r != live ==> |r| == max) && OldestGone(live, r)
    ensures Trimmed(m, r, now, max)
  {
    forall d, k | d in m && d !in r && now < m[d].expires && k in r ensures m[d].seqNo < r[k].seqNo {
      assert d in live;
    }
  }

  lemma StillNumbered(a: Entries, b: Entries, top: nat)
    requires SubEntries(a, b) && Numbered(b, top)
    ensures Numbered(a, top)
  {
  }

  /** Whatever is gone is older than whatever stayed. */
  ghost predicate OldestGone(live: Entries, r: Entries) {
    forall d, k :: d in live && d !in r && k in r ==> live[d].seqNo < r[k].seqNo
  }

  lemma OneMoreGone(live: Entries, r: Entries, k: Key)
    requires SubEntries(r, live) && OldestGone(live, r) && k in r && forall j :: j in r && j != k ==>
      r[k].seqNo < r[j].seqNo
    ensures SubEntries(r - {k}, live) && OldestGone(live, r - {k}) && |r - {k}| == |r| - 1
  {
    MapWithout(r, k);
  }

  /** Drops the oldest entries until the rest fit. */
  method DropOldest(live: Entries, top: nat, max: nat) returns (r: Entries)
    requires Numbered(live, top)
    ensures SubEntries(r, live) && |r| <= max && (r != live ==> |r| == max) && OldestGone(live, r)
  {
    r := live;
    while |r| > max
      invariant SubEntries(r, live) && Numbered(r, top) && OldestGone(live, r) && (r != live ==> |r| >= max)
      decreases |r|
    {
      var k := Oldest(r, top);
      StillNumbered(r - {k}, r, top);
      hide Numbered, OldestGone;
      OneMoreGone(live, r, k);
      r := r - {k};
    }
  }

  // ---------------------------------------------------------------- the cache

  predicate BackedBy(c: Config, e: Entry, a: Accepted) { e.value == a.value && e.expires == Expiry(c, a.value, a.at) }

  /** Every entry is the last answer accepted for its key. */
  predicate Backed(c: Config, m: Entries, accepted: map<Key, Accepted>) {
    forall k <- m :: k in accepted && BackedBy(c, m[k], accepted[k])
  }

  /** Within its configured lifetime, and before the responder's next update. */
  predicate InTime(c: Config, a: Accepted, now: Time) {
    now < a.at + Lifetime(c, a.value) && (a.value.nextUpdate.Some? ==> now < a.value.nextUpdate.value)
  }

  lemma HitIsGood(c: Config, m: Entries, accepted: map<Key, Accepted>, k: Key, now: Time)
    requires Backed(c, m, accepted) && k in m && now < m[k].expires
    ensures k in accepted && m[k].value == accepted[k].value && InTime(c, accepted[k], now)
  {
    hide Lifetime;
    assert BackedBy(c, m[k], accepted[k]);
  }

  lemma Removed(c: Config, m: Entries, accepted: map<Key, Accepted>, top: nat, k: Key)
    requires Numbered(m, top) && Backed(c, m, accepted) && k in m
    ensures Numbered(m - {k}, top) && Backed(c, m - {k}, accepted) && |m - {k}| < |m|
  {
    hide BackedBy;
    MapWithout(m, k);
    StillSound(c, m - {k}, m, accepted, top);
  }

  lemma StillSound(c: Config, a: Entries, b: Entries, accepted: map<Key, Accepted>, top: nat)
    requires SubEntries(a, b) && Numbered(b, top) && Backed(c, b, accepted)
    ensures Numbered(a, top) && Backed(c, a, accepted)
  {
    hide BackedBy;
  }

  lemma Added(c: Config, m: Entries, accepted: map<Key, Accepted>, top: nat, k: Key, v: Answer, now: Time,
              grown: Entries)
    requires Numbered(m, top) && Backed(c, m, accepted) && grown == m[k := Entry(v, Expiry(c, v, now), top + 1)]
    ensures Numbered(grown, top + 1) && Backed(c, grown, accepted[k := Accepted(v, now)])
    ensures forall j :: j in grown && j != k ==> grown[j].seqNo < grown[k].seqNo
  {
    hide Expiry;
  }

  class Cache {
    const config: Config
    var entries: Entries
    var seqNo: nat
    var hits: nat
    var misses: nat
    ghost var accepted: map<Key, Accepted>

    /** Bounded; and every entry is the last answer accepted for its key. */
    ghost predicate Valid()
      reads this
    {
      && config.ttl > 0 && config.revokedTtl > 0 && config.maxEntries > 0
      && |entries| <= config.maxEntries && Numbered(entries, seqNo) && Backed(config, entries, accepted)
    }

    /** Ten minutes, a day and four thousand entries are the defaults. */
    constructor (c: Config)
      ensures Valid() && entries == map[] && accepted == map[] && seqNo == 0 && hits == 0 && misses == 0
      ensures config.ttl == (if c.ttl >= 1 then c.ttl else 10 * 60)
      ensures config.revokedTtl == (if c.revokedTtl >= 1 then c.revokedTtl else 24 * 60 * 60)
      ensures config.maxEntries == if c.maxEntries >= 1 then c.maxEntries else 4096
    {
      config := Config(if c.ttl <= 0 then 600 else c.ttl, if c.revokedTtl <= 0 then 86400 else c.revokedTtl,
                       if c.maxEntries <= 0 then 4096 else c.maxEntries);
      entries, seqNo, hits, misses, accepted := map[], 0, 0, 0, map[];
    }

    /** A hit is the last answer accepted for this very certificate and responder, and it is
        within its configured lifetime and before the responder's next update. */
    method Lookup(k: Key, now: Time) returns (r: Option<Answer>)
      requires Valid()
      modifies this
      ensures Valid() && accepted == old(accepted) && seqNo == old(seqNo)
      ensures r.Some? <==> k in old(entries) && now < old(entries)[k].expires
      ensures r.Some? ==> k in accepted && r.value == accepted[k].value && entries == old(entries)
      ensures r.Some? ==> InTime(config, accepted[k], now)
      ensures r.None? ==> entries == if k in old(entries) then old(entries) - {k} else old(entries)
      ensures hits + misses == old(hits + misses) + 1 && (r.Some? <==> hits == old(hits) + 1)
    {
      hide Numbered, Backed, Expiry, Lifetime;
      if k !in entries {
        misses := misses + 1;
        return None;
      }
      var e := entries[k];
      if e.expires <= now {
        Removed(config, entries, accepted, seqNo, k);
        entries := entries - {k};
        misses := misses + 1;
        return None;
      }
      HitIsGood(config, entries, accepted, k, now);
      hits := hits + 1;
      return Some(e.value);
    }

    /** Accepts an answer unless it is stale on arrival. What is accepted is there afterwards,
        whatever else had to go to make room. */
    method Store(k: Key, v: Answer, now: Time)
      requires Valid()
      modifies this
      ensures Valid() && hits == old(hits) && misses == old(misses)
      ensures Expiry(config, v, now) <= now ==> entries == old(entries) && accepted == old(accepted)
      ensures now < Expiry(config, v, now) ==>
        accepted == old(accepted)[k := Accepted(v, now)] && k in entries && entries[k].value == v
      ensures now < Expiry(config, v, now) ==>
        Trimmed(old(entries)[k := Entry(v, Expiry(config, v, now), old(seqNo) + 1)], entries, now, config.maxEntries)
    {
      hide Backed, Trimmed, Numbered, Expiry, Lifetime;
      var expires := Expiry(config, v, now);
      if expires <= now { return; }
      var grown := entries[k := Entry(v, expires, seqNo + 1)];
      Added(config, entries, accepted, seqNo, k, v, now, grown);
      seqNo := seqNo + 1;
      accepted := accepted[k := Accepted(v, now)];
      entries := Evict(grown, seqNo, now, config.maxEntries);
      Stored(config, grown, entries, accepted, seqNo, k, now);
    }
  }

  lemma Stored(c: Config, grown: Entries, after: Entries, accepted: map<Key, Accepted>, top: nat, k: Key, now: Time)
    requires c.maxEntries > 0 && Trimmed(grown, after, now, c.maxEntries) && Numbered(grown, top)
      && Backed(c, grown, accepted)
    requires k in grown && now < grown[k].expires && forall j :: j in grown && j != k ==>
      grown[j].seqNo < grown[k].seqNo
    ensures Numbered(after, top) && Backed(c, after, accepted) && |after| <= c.maxEntries && k in after
      && after[k] == grown[k]
  {
    hide Backed, Trimmed, Numbered;
    NewestStays(grown, after, k, now, c.maxEntries);
    TrimmedIsPart(grown, after, now, c.maxEntries);
    StillSound(c, after, grown, accepted, top);
  }

  /** The entry just added is the newest and not expired, so eviction never takes it. */
  lemma NewestStays(before: Entries, after: Entries, k: Key, now: Time, max: nat)
    requires Trimmed(before, after, now, max) && max > 0 && k in before && now < before[k].expires
    requires forall j :: j in before && j != k ==> before[j].seqNo < before[k].seqNo
    ensures k in after && after[k] == before[k]
  {
    if k !in after { Occupied(after); }
  }

  lemma TrimmedIsPart(before: Entries, after: Entries, now: Time, max: nat)
    requires Trimmed(before, after, now, max)
    ensures SubEntries(after, before) && |after| <= max
  {
  }

  lemma Occupied(m: Entries)
    ensures |m| > 0 ==> exists k :: k in m
  {
    if |m| > 0 { assert m.Keys != {} by { assert |m| == |m.Keys|; } }
  }
}
