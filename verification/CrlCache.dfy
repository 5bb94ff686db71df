/**
 The byte-bounded cache of revocation lists: least recently used lists go first, the
 running total is the sum of the sizes held, and a list is reported reliable only when
 it is fresh and its delta agrees with it.
 */
module CrlCache {
  import opened Prelude

  type Time = int

  /** What a list says about itself. */
  datatype Meta = Meta(nextUpdate: Option<Time>, number: Option<int>, baseNumber: Option<int>, aki: Bytes)

  datatype Entry = Entry(der: Bytes, meta: Meta, size: nat, lastUsed: Time)

  type Entries = map<string, Entry>

  type Parser = Bytes -> Meta

  // ---------------------------------------------------------------- sizes

  ghost function Sum(m: Entries): (r: nat)
    decreases |m|
  {
    if m == map[] then 0 else
    var k :| k in m;
    MapWithout(m, k);
    m[k].size + Sum(m - {k})
  }

  /** Any entry can be counted first. */
  lemma {:induction false} SumWithout(m: Entries, k: string)
    requires k in m
    ensures Sum(m) == m[k].size + Sum(m - {k})
    decreases |m|
  {
    var j :| j in m && Sum(m) == m[j].size + Sum(m - {j});
    MapWithout(m, j);
    if j != k {
      SumWithout(m - {j}, k);
      MapWithout(m, k);
      SumWithout(m - {k}, j);
      assert m - {j} - {k} == m - {k} - {j};
    }
  }

  lemma SumWith(m: Entries, k: string, e: Entry)
    ensures Sum(m[k := e]) == e.size + Sum(m - {k})
    ensures k !in m ==> m - {k} == m
  {
    SumWithout(m[k := e], k);
    assert m[k := e] - {k} == m - {k};
  }

  // ---------------------------------------------------------------- eviction

  predicate SubEntries(a: Entries, b: Entries) { a.Keys <= b.Keys && forall k <- a :: a[k] == b[k] }

  /** Whatever is gone was used no later than whatever stayed beside the kept entry. */
  ghost predicate LeastRecentGone(before: Entries, after: Entries, keep: string) {
    forall d, k :: d in before && d !in after && k in after && k != keep ==> before[d].lastUsed <= after[k].lastUsed
  }

  /** The last entry to go: without its going the rest would not have fitted. */
  ghost predicate NeededToGo(before: Entries, after: Entries, cap: int, d: string) {
    && d in before && d !in after && Sum(after) + before[d].size > cap
    && forall x :: x in before && x !in after ==> before[x].lastUsed <= before[d].lastUsed
  }

  /** Least recently used went first, and none went needlessly. */
  ghost predicate Shed(before: Entries, after: Entries, keep: string, cap: int) {
    && SubEntries(after, before) && keep in after && LeastRecentGone(before, after, keep)
    && (after != before ==> exists d :: NeededToGo(before, after, cap, d))
  }

  /** And what is left is within the cap, or nothing but the entry to keep. */
  ghost predicate Trimmed(before: Entries, after: Entries, keep: string, cap: int) {
    Shed(before, after, keep, cap) && (Sum(after) <= cap || after.Keys == {keep})
  }

  method LeastRecent(m: Entries, keep: string) returns (r: Option<string>)
    ensures r.None? ==> m.Keys <= {keep}
    ensures r.Some? ==>
      r.value in m && r.value != keep && forall k :: k in m && k != keep ==> m[r.value].lastUsed <= m[k].lastUsed
  {
    r := None;
    var todo := m.Keys;
    while todo != {}
      invariant todo <= m.Keys
      invariant r.None? ==> forall k :: k in m && k !in todo ==> k == keep
      invariant r.Some? ==> r.value in m && r.value != keep
      invariant r.Some? ==> forall k :: k in m && k !in todo && k != keep ==> m[r.value].lastUsed <= m[k].lastUsed
      decreases |todo|
    {
      var k :| k in todo;
      todo := todo - {k};
      if k == keep { continue; }
      if r.None? || m[k].lastUsed < m[r.value].lastUsed { r := Some(k); }
    }
  }

  lemma OneMoreGone(before: Entries, m: Entries, keep: string, cap: int, v: string)
    requires Shed(before, m, keep, cap) && Sum(m) > cap
    requires v in m && v != keep && forall k :: k in m && k != keep ==> m[v].lastUsed <= m[k].lastUsed
    ensures Shed(before, m - {v}, keep, cap) && Sum(m - {v}) == Sum(m) - m[v].size && |m - {v}| < |m|
  {
    SumWithout(m, v);
    MapWithout(m, v);
    assert NeededToGo(before, m - {v}, cap, v);
  }

  lemma NothingGone(m: Entries, keep: string, cap: int)
    requires keep in m
    ensures Shed(m, m, keep, cap)
  {
  }

  lemma Kept(before: Entries, m: Entries, keep: string, cap: int)
    requires Shed(before, m, keep, cap)
    ensures keep in m && SubEntries(m, before)
  {
  }

  method Evict(entries: Entries, total: int, keep: string, cap: int) returns (after: Entries, left: int)
    requires keep in entries && total == Sum(entries)
    ensures Trimmed(entries, after, keep, cap) && left == Sum(after)
  {
    hide Shed;
    after, left := entries, total;
    NothingGone(entries, keep, cap);
    while left > cap && |after| > 1
      invariant Shed(entries, after, keep, cap) && left == Sum(after)
      decreases |after|
    {
      var v := LeastRecent(after, keep);
      Kept(entries, after, keep, cap);
      if v.None? {
        assert after.Keys == {keep};
        break;
      }
      OneMoreGone(entries, after, keep, cap, v.value);
      left := left - after[v.value].size;
      after := after - {v.value};
    }
    Kept(entries, after, keep, cap);
    if |after| <= 1 { OnlyOne(after, keep); }
  }

  lemma OnlyOne(m: Entries, k: string)
    requires k in m && |m| <= 1
    ensures m.Keys == {k}
  {
    MapWithout(m, k);
    assert |(m - {k}).Keys| == |m - {k}|;
    assert (m - {k}).Keys == m.Keys - {k};
  }

  // ---------------------------------------------------------------- the cache

  /** Every entry is the last list stored under its key, measured and parsed. */
  predicate EntryOk(parse: Parser, e: Entry, der: Bytes) { e.der == der && e.meta == parse(der) && e.size == |der| }

  predicate Faithful(parse: Parser, m: Entries, latest: map<string, Bytes>) {
    forall k <- m :: k in latest && EntryOk(parse, m[k], latest[k])
  }

  predicate Unexpired(m: Meta, now: Time) { m.nextUpdate.Some? && now < m.nextUpdate.value }

  /** A list handed out, and whether it is current. */
  datatype Found = Found(der: Bytes, meta: Meta, current: bool)

  /** What the network would deliver for each key: a list that parses, or nothing. */
  type Network = string -> Option<Bytes>

  /** The answer for one key: a held list that is not past its next update, else what the network
      delivers, else the held list as a stale one. */
  function Answer(parse: Parser, net: Network, m: Entries, k: string, now: Time): (r: Option<Found>) {
    if k in m && Unexpired(m[k].meta, now) then Some(Found(m[k].der, m[k].meta, true))
    else if net(k).Some? then Some(Found(net(k).value, parse(net(k).value), true))
    else if k in m then Some(Found(m[k].der, m[k].meta, false))
    else None
  }

  /** The answer of the first key that has one. */
  function FirstAnswer(parse: Parser, net: Network, m: Entries, keys: seq<string>, now: Time): (r: Option<Found>) {
    if |keys| == 0 then None
    else if Answer(parse, net, m, keys[0], now).Some? then Answer(parse, net, m, keys[0], now)
    else FirstAnswer(parse, net, m, keys[1..], now)
  }

  /** What a lookup leaves behind: a held list is marked as used, and a fetched one is stored with
      older ones going to make room. */
  ghost predicate LookupLeaves(parse: Parser, net: Network, cap: int, m: Entries, k: string, now: Time, later: Time,
                               after: Entries) {
    var used := if k in m then m[k := m[k].(lastUsed := now)] else m;
    if net(k).None? || (k in m && Unexpired(m[k].meta, now)) then after == used
    else Trimmed(used[k := Entry(net(k).value, parse(net(k).value), |net(k).value|, later)], after, k, cap)
  }

  /** Only the key that answered leaves a trace. */
  ghost predicate SearchLeaves(parse: Parser, net: Network, cap: int, m: Entries, keys: seq<string>, now: Time,
                               later: Time, after: Entries) {
    if |keys| == 0 then after == m
    else if Answer(parse, net, m, keys[0], now).Some? then LookupLeaves(parse, net, cap, m, keys[0], now, later, after)
    else SearchLeaves(parse, net, cap, m, keys[1..], now, later, after)
  }

  /** No earlier key is held or can be fetched, and when none can, nothing is found. */
  lemma {:induction false} FirstAnswerIsFirst(parse: Parser, net: Network, m: Entries, keys: seq<string>, now: Time)
    ensures var r := FirstAnswer(parse, net, m, keys, now);
      && (r.None? <==> forall k <- keys :: k !in m && net(k).None?)
      && (r.Some? ==> exists i :: 0 <= i < |keys| && IsFirst(parse, net, m, keys, now, i, r))
  {
    hide Answer;
    if |keys| > 0 {
      AnswerNone(parse, net, m, keys[0], now);
      var r := FirstAnswer(parse, net, m, keys, now);
      if Answer(parse, net, m, keys[0], now).Some? {
        assert IsFirst(parse, net, m, keys, now, 0, r);
      } else {
        FirstAnswerIsFirst(parse, net, m, keys[1..], now);
        assert keys == [keys[0]] + keys[1..];
        if r.Some? {
          var i :| 0 <= i < |keys| - 1 && IsFirst(parse, net, m, keys[1..], now, i, r);
          assert IsFirst(parse, net, m, keys, now, i + 1, r) by {
            assert forall j :: 0 < j <= i ==> keys[j] == keys[1..][j - 1];
          }
        }
      }
    }
  }

  predicate IsFirst(parse: Parser, net: Network, m: Entries, keys: seq<string>, now: Time, i: nat, r: Option<Found>)
    requires i < |keys|
  {
    r == Answer(parse, net, m, keys[i], now) && forall j :: 0 <= j < i ==> keys[j] !in m && net(keys[j]).None?
  }

  lemma AnswerNone(parse: Parser, net: Network, m: Entries, k: string, now: Time)
    ensures Answer(parse, net, m, k, now).None? <==> k !in m && net(k).None?
  {
  }

  /** Every held list was fetched just now or is the last one stored earlier, parsed. */
  predicate Held(parse: Parser, net: Network, m: Entries, latest: map<string, Bytes>) {
    forall k <- m ::
      m[k].meta == parse(m[k].der) && (net(k) == Some(m[k].der) || (k in latest && latest[k] == m[k].der))
  }

  /** What is handed out was fetched just now or is the last list stored; it is current if and
      only if it was fetched just now or is not past its next update. */
  lemma AnswerGenuine(parse: Parser, net: Network, m: Entries, latest: map<string, Bytes>, k: string, now: Time)
    requires Held(parse, net, m, latest) && Answer(parse, net, m, k, now).Some?
    ensures var f := Answer(parse, net, m, k, now).value;
      && (net(k) == Some(f.der) || (k in latest && latest[k] == f.der)) && f.meta == parse(f.der)
      && (f.current <==> net(k).Some? || Unexpired(f.meta, now))
  {
  }

  /** A list handed out as current is already past its next update, or names none, exactly when
      it had to be fetched and was delivered so: freshness of a delivery is not looked at. */
  lemma CurrentThoughExpired(parse: Parser, net: Network, m: Entries, k: string, now: Time)
    requires Answer(parse, net, m, k, now).Some?
    ensures var f := Answer(parse, net, m, k, now).value;
      f.current && !Unexpired(f.meta, now) <==>
        !(k in m && Unexpired(m[k].meta, now)) && net(k).Some? && !Unexpired(parse(net(k).value), now)
  {
  }

  /** Stored lists change only by fetching. */
  predicate Advanced(net: Network, a: map<string, Bytes>, b: map<string, Bytes>) {
    a.Keys <= b.Keys && forall k <- b :: (k in a && b[k] == a[k]) || net(k) == Some(b[k])
  }

  predicate Consistent(base: Meta, delta: Meta) {
    && delta.baseNumber.Some? && base.number.Some? && delta.baseNumber.value <= base.number.value
    && (|base.aki| > 0 && |delta.aki| > 0 ==> base.aki == delta.aki)
  }

  datatype Reason = Fine | StaleBase | DeltaUnavailable | StaleDelta | DeltaInconsistent

  datatype Resolved = Resolved(base: Bytes, delta: Option<Bytes>, reliable: bool, reason: Reason)

  /** A list in a spool directory, by its key, and whether it still parses. */
  datatype Spooled = Spooled(key: string, der: Bytes, parses: bool)

  /** What is made of the base and, where the certificate names one, the delta. */
  function Resolution(b: Found, named: bool, d: Option<Found>): (r: Resolved) {
    var found := if !named then Fine else if d.None? then DeltaUnavailable else if !d.value.current then StaleDelta
                 else if !Consistent(b.meta, d.value.meta) then DeltaInconsistent else Fine;
    var reason := if !b.current then StaleBase else found;
    Resolved(b.der, if named && found == Fine then Some(d.value.der) else None, reason == Fine, reason)
  }

  /** A certificate's lists are reliable if and only if the base is current and a delta that is
      named was found, is current and agrees with the base; and each reason means what it says. */
  lemma ReliableExactly(b: Found, named: bool, d: Option<Found>)
    ensures var r := Resolution(b, named, d);
      && (r.reliable <==> b.current && (named ==> d.Some? && d.value.current && Consistent(b.meta, d.value.meta)))
      && (r.delta.Some? <==> named && d.Some? && d.value.current && Consistent(b.meta, d.value.meta))
      && (r.delta.Some? ==> r.delta.value == d.value.der)
      && (r.reason == StaleBase <==> !b.current)
      && (r.reason == DeltaUnavailable <==> b.current && named && d.None?)
      && (r.reason == StaleDelta <==> b.current && named && d.Some? && !d.value.current)
      && (r.reason == DeltaInconsistent <==>
        b.current && named && d.Some? && d.value.current && !Consistent(b.meta, d.value.meta))
  {
  }

  lemma FaithfulPart(parse: Parser, a: Entries, b: Entries, latest: map<string, Bytes>)
    requires SubEntries(a, b) && Faithful(parse, b, latest)
    ensures Faithful(parse, a, latest)
  {
    hide EntryOk;
  }

  lemma StoredFaithfully(parse: Parser, m: Entries, latest: map<string, Bytes>, k: string, e: Entry)
    requires Faithful(parse, m, latest) && EntryOk(parse, e, e.der)
    ensures Faithful(parse, m[k := e], latest[k := e.der])
  {
  }

  lemma Touched(parse: Parser, m: Entries, latest: map<string, Bytes>, k: string, now: Time)
    requires Faithful(parse, m, latest) && k in m
    ensures var t := m[k := m[k].(lastUsed := now)]; Faithful(parse, t, latest) && Sum(t) == Sum(m)
  {
    hide Sum;
    SumWithout(m, k);
    SumWith(m, k, m[k].(lastUsed := now));
  }

  lemma AdvancedSame(net: Network, a: map<string, Bytes>)
    ensures Advanced(net, a, a)
  {
  }

  lemma AdvancedByFetch(net: Network, a: map<string, Bytes>, k: string, der: Bytes)
    requires net(k) == Some(der)
    ensures Advanced(net, a, a[k := der])
  {
  }

  lemma AdvancedTwice(net: Network, a: map<string, Bytes>, b: map<string, Bytes>, c: map<string, Bytes>)
    requires Advanced(net, a, b) && Advanced(net, b, c)
    ensures Advanced(net, a, c)
  {
  }

  lemma NoTrace(parse: Parser, net: Network, cap: int, m: Entries, k: string, now: Time, later: Time, after: Entries)
    requires LookupLeaves(parse, net, cap, m, k, now, later, after) && Answer(parse, net, m, k, now).None?
    ensures after == m
  {
    hide Trimmed;
  }

  lemma HeldNow(parse: Parser, net: Network, m: Entries, a: map<string, Bytes>, b: map<string, Bytes>)
    requires Faithful(parse, m, b) && Advanced(net, a, b)
    ensures Held(parse, net, m, a)
  {
  }

  class Cache {
    const parse: Parser
    const cap: int
    var entries: Entries
    var total: int
    var hits: nat
    var misses: nat
    ghost var latest: map<string, Bytes>

    ghost predicate Valid()
      reads this
    {
      cap > 0 && total == Sum(entries) && Faithful(parse, entries, latest)
    }

    constructor (parse: Parser, maxBytes: int)
      ensures Valid() && entries == map[] && latest == map[] && this.parse == parse
      ensures cap == if maxBytes <= 0 then 268435456 else maxBytes
    {
      this.parse, cap := parse, if maxBytes <= 0 then 268435456 else maxBytes;
      entries, total, hits, misses, latest := map[], 0, 0, 0, map[];
    }

    /** After a store the new list is held, and the total is within the cap unless it alone
        remains. */
    method Store(k: string, der: Bytes, now: Time) returns (e: Entry)
      requires Valid()
      modifies this
      ensures Valid() && latest == old(latest)[k := der] && hits == old(hits) && misses == old(misses)
      ensures e == Entry(der, parse(der), |der|, now) && k in entries && entries[k] == e
      ensures Trimmed(old(entries)[k := e], entries, k, cap) && (total <= cap || entries.Keys == {k})
    {
      hide Faithful, Shed;
      e := Entry(der, parse(der), |der|, now);
      SumWith(entries, k, e);
      if k in entries {
        SumWithout(entries, k);
        total := total - entries[k].size;
      }
      var grown := entries[k := e];
      StoredFaithfully(parse, entries, latest, k, e);
      latest := latest[k := der];
      entries, total := Evict(grown, total + e.size, k, cap);
      Kept(grown, entries, k, cap);
      FaithfulPart(parse, entries, grown, latest);
    }

    /** One list, from the cache while it is fresh, else from the network, else stale. */
    method Get(k: string, now: Time, later: Time, net: Network) returns (r: Option<Found>)
      requires Valid()
      modifies this
      ensures Valid() && Advanced(net, old(latest), latest)
      ensures r == Answer(parse, net, old(entries), k, now)
      ensures LookupLeaves(parse, net, cap, old(entries), k, now, later, entries)
      ensures r.None? ==> latest == old(latest)
      ensures hits + misses == old(hits + misses) + 1
    {
      hide Sum, Trimmed, Faithful, Advanced;
      AdvancedSame(net, latest);
      var seen := k in entries;
      if seen {
        Touched(parse, entries, latest, k, now);
        entries := entries[k := entries[k].(lastUsed := now)];
        if Unexpired(entries[k].meta, now) {
          hits := hits + 1;
          return Some(Found(entries[k].der, entries[k].meta, true));
        }
      }
      misses := misses + 1;
      var fetched := net(k);
      if fetched.None? {
        if seen { return Some(Found(entries[k].der, entries[k].meta, false)); }
        return None;
      }
      AdvancedByFetch(net, latest, k, fetched.value);
      var e := Store(k, fetched.value, later);
      return Some(Found(fetched.value, e.meta, true));
    }

    /** The first key that yields a list. */
    method First(keys: seq<string>, now: Time, later: Time, net: Network) returns (r: Option<Found>)
      requires Valid()
      modifies this
      ensures Valid() && Advanced(net, old(latest), latest)
      ensures r == FirstAnswer(parse, net, old(entries), keys, now)
      ensures SearchLeaves(parse, net, cap, old(entries), keys, now, later, entries)
    {
      hide Sum, Faithful, Answer, Advanced, Trimmed, LookupLeaves;
      AdvancedSame(net, latest);
      for i := 0 to |keys|
        invariant Valid() && entries == old(entries) && latest == old(latest)
        invariant FirstAnswer(parse, net, entries, keys, now) == FirstAnswer(parse, net, entries, keys[i..], now)
        invariant forall x: Entries ::
          SearchLeaves(parse, net, cap, entries, keys[i..], now, later, x) ==>
            SearchLeaves(parse, net, cap, entries, keys, now, later, x)
      {
        assert keys[i..][1..] == keys[i + 1..];
        r := Get(keys[i], now, later, net);
        if r.Some? { return; }
        NoTrace(parse, net, cap, old(entries), keys[i], now, later, entries);
      }
      return None;
    }

    /** The base, then the delta where one is named; the delta is looked up among the lists held
        after the base was. */
    method CrlFor(baseKeys: seq<string>, deltaKeys: seq<string>, now: Time, later: Time, net: Network)
      returns (r: Option<Resolved>, ghost between: Entries)
      requires Valid()
      modifies this
      ensures Valid() && Advanced(net, old(latest), latest) && Held(parse, net, between, old(latest))
      ensures SearchLeaves(parse, net, cap, old(entries), baseKeys, now, later, between)
      ensures r.Some? ==> SearchLeaves(parse, net, cap, between, deltaKeys, now, later, entries)
      ensures var base := FirstAnswer(parse, net, old(entries), baseKeys, now);
        r == if base.None? then None
             else Some(Resolution(base.value, |deltaKeys| > 0, FirstAnswer(parse, net, between, deltaKeys, now)))
    {
      hide Sum, Faithful, FirstAnswer, Advanced, Trimmed, Consistent, Held, LookupLeaves;
      var base := First(baseKeys, now, later, net);
      between := entries;
      HeldNow(parse, net, entries, old(latest), latest);
      if base.None? { return None, between; }
      var res := Resolved(base.value.der, None, true, Fine);
      if !base.value.current { res := res.(reliable := false, reason := StaleBase); }
      if |deltaKeys| == 0 { return Some(res), between; }
      ghost var mid := latest;
      var delta := First(deltaKeys, now, later, net);
      AdvancedTwice(net, old(latest), mid, latest);
      var bad := Fine;
      if delta.None? {
        bad := DeltaUnavailable;
      } else if !delta.value.current {
        bad := StaleDelta;
      } else if Consistent(base.value.meta, delta.value.meta) {
        res := res.(delta := Some(delta.value.der));
      } else {
        bad := DeltaInconsistent;
      }
      if bad != Fine { res := res.(reliable := false, reason := if res.reason == Fine then bad else res.reason); }
      return Some(res), between;
    }

    /** Adopts the lists of a spool directory, whose names are distinct. */
    method WarmStart(files: seq<Spooled>, now: Time)
      requires Valid() && entries == map[] && forall i, j :: 0 <= i < j < |files| ==> files[i].key != files[j].key
      modifies this
      ensures Valid() && forall i :: 0 <= i < |files| && files[i].parses ==>
        files[i].key in entries && entries[files[i].key].der == files[i].der
      ensures forall k <- entries :: exists i :: 0 <= i < |files| && files[i].parses && files[i].key == k
    {
      for i := 0 to |files|
        invariant Valid()
        invariant forall j :: 0 <= j < i && files[j].parses ==>
          files[j].key in entries && entries[files[j].key].der == files[j].der
        invariant forall k <- entries :: exists j :: 0 <= j < i && files[j].parses && files[j].key == k
      {
        if !files[i].parses { continue; }
        var k, e := files[i].key, Entry(files[i].der, parse(files[i].der), |files[i].der|, now);
        SumWith(entries, k, e);
        StoredFaithfully(parse, entries, latest, k, e);
        entries, total, latest := entries[k := e], total + e.size, latest[k := files[i].der];
      }
    }
  }
}
