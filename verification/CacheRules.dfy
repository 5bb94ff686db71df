/**
 What the two revocation caches and the check that uses one of them answer, in clock
 time and in the fields of the lists and responses themselves.
 */
module CrlRules {
  import opened Prelude
  import opened CrlCache

  /** Before the next update the list names; a list that names none is never fresh. */
  predicate Fresh(m: Meta, now: Time) { m.nextUpdate != None && m.nextUpdate.value > now }

  /** A fresh list held is handed out whatever the network would say; otherwise what the network
      delivers counts as current, and only when it delivers nothing is the old list handed out,
      and then as a stale one. */
  lemma AnswerExactly(parse: Parser, net: Network, m: Entries, k: string, now: Time)
    ensures var r := Answer(parse, net, m, k, now);
      && (k in m && Fresh(m[k].meta, now) ==> r == Some(Found(m[k].der, m[k].meta, true)))
      && (!(k in m && Fresh(m[k].meta, now)) && net(k).Some? ==>
        r == Some(Found(net(k).value, parse(net(k).value), true)))
      && (k in m && !Fresh(m[k].meta, now) && net(k) == None ==> r == Some(Found(m[k].der, m[k].meta, false)))
      && (k !in m && net(k) == None ==> r == None)
  {
  }

  /** The delta builds on a base no newer than the one held, and one issuer signed both, as far
      as both say who did. */
  predicate Agrees(base: Meta, delta: Meta) {
    && delta.baseNumber != None && base.number != None && base.number.value >= delta.baseNumber.value
    && (base.aki == delta.aki || base.aki == [] || delta.aki == [])
  }

  /** The lists are reliable exactly when the base is current and the delta, if the certificate
      names one, was found, is current and agrees; a delta is used exactly when it does, whatever
      the base is worth; and a stale base outweighs every complaint about the delta. */
  lemma ResolvedExactly(b: Found, named: bool, d: Option<Found>)
    ensures var r, good := Resolution(b, named, d), d.Some? && d.value.current && Agrees(b.meta, d.value.meta);
      && r.base == b.der && (r.reliable <==> b.current && (named ==> good))
      && r.delta == (if named && good then Some(d.value.der) else None)
      && (r.reliable <==> r.reason == Fine)
      && (!b.current ==> r.reason == StaleBase)
      && (b.current && named && !good ==>
        r.reason == if d == None then DeltaUnavailable else if !d.value.current then StaleDelta else DeltaInconsistent)
  {
  }

  /** A lookup marks a held list as used now, and changes nothing else, unless it fetches. */
  lemma LookupWithoutFetch(parse: Parser, net: Network, cap: int, m: Entries, k: string, now: Time, later: Time,
                           after: Entries)
    requires LookupLeaves(parse, net, cap, m, k, now, later, after)
    requires net(k) == None || (k in m && Fresh(m[k].meta, now))
    ensures after.Keys == m.Keys && forall j <- m :: j != k ==> after[j] == m[j]
    ensures k in m ==> after[k] == Entry(m[k].der, m[k].meta, m[k].size, now)
  {
    hide Trimmed;
  }

  /** A fetched list is held as delivered, measured and parsed, and used last at the moment it
      was stored; of the others some may go, and whoever stays is unchanged. */
  lemma LookupWithFetch(parse: Parser, net: Network, cap: int, m: Entries, k: string, now: Time, later: Time,
                        after: Entries)
    requires LookupLeaves(parse, net, cap, m, k, now, later, after)
    requires net(k).Some? && !(k in m && Fresh(m[k].meta, now))
    ensures k in after && after[k] == Entry(net(k).value, parse(net(k).value), |net(k).value|, later)
    ensures forall j <- after :: j != k ==> j in m && after[j] == m[j]
    ensures Sum(after) <= cap || after.Keys == {k}
    ensures forall d, j :: d in m && d !in after && j in after && j != k ==> m[d].lastUsed <= m[j].lastUsed
  {
    hide Sum, NeededToGo;
    var used := if k in m then m[k := m[k].(lastUsed := now)] else m;
    var grown := used[k := Entry(net(k).value, parse(net(k).value), |net(k).value|, later)];
    assert Trimmed(grown, after, k, cap);
    forall d, j | d in m && d !in after && j in after && j != k ensures m[d].lastUsed <= m[j].lastUsed {
      assert d in grown && grown[d].lastUsed <= after[j].lastUsed;
    }
  }

  /** Nothing goes while everything fits. */
  lemma NothingGoesInRoom(before: Entries, after: Entries, keep: string, cap: int, d: string)
    requires Trimmed(before, after, keep, cap) && d in before && d !in after
    ensures Sum(before) > cap
  {
    hide LeastRecentGone;
    var x :| NeededToGo(before, after, cap, x);
    SumOfPart(after, before, x);
  }

  lemma {:induction false} SumOfPart(a: Entries, b: Entries, x: string)
    requires SubEntries(a, b) && x in b && x !in a
    ensures Sum(a) + b[x].size <= Sum(b)
    decreases |b|
  {
    hide SubEntries;
    SumWithout(b, x);
    SumLess(a, b - {x}) by { assert SubEntries(a, b - {x}) by { Without(a, b, x); } }
  }

  lemma Without(a: Entries, b: Entries, x: string)
    requires SubEntries(a, b) && x !in a
    ensures SubEntries(a, b - {x})
  {
  }

  lemma {:induction false} SumLess(a: Entries, b: Entries)
    requires SubEntries(a, b)
    ensures Sum(a) <= Sum(b)
    decreases |b|
  {
    if x :| x in b && x !in a {
      Without(a, b, x);
      SumWithout(b, x);
      MapWithout(b, x);
      hide Sum, SubEntries;
      SumLess(a, b - {x});
    } else {
      assert a == b;
    }
  }
}

module OcspRules {
  import opened Prelude
  import opened OcspCache

  /** A kept answer is good for the time set for its kind, counted from when it was accepted, and
      no longer than the responder promised. */
  lemma KeptExactly(c: Config, v: Answer, at: Time, now: Time)
    ensures now < Expiry(c, v, at) <==>
      && now - at < (if v.revoked then c.revokedTtl else c.ttl)
      && (v.nextUpdate == None || now < v.nextUpdate.value)
  {
  }

  /** An answer is kept unless the responder's promise has already run out. */
  lemma AcceptedExactly(c: Config, v: Answer, at: Time)
    requires c.ttl > 0 && c.revokedTtl > 0
    ensures at < Expiry(c, v, at) <==> (v.nextUpdate == None || at < v.nextUpdate.value)
  {
    KeptExactly(c, v, at, at);
  }

  /** What is held stands for the answer accepted last, and is given out exactly for its time. */
  lemma HeldExactly(c: Config, m: Entries, accepted: map<Key, Accepted>, k: Key, now: Time)
    requires Backed(c, m, accepted) && k in m
    ensures k in accepted && m[k].value == accepted[k].value
    ensures now < m[k].expires <==>
      && now < accepted[k].at + (if accepted[k].value.revoked then c.revokedTtl else c.ttl)
      && (accepted[k].value.nextUpdate == None || now < accepted[k].value.nextUpdate.value)
  {
    KeptExactly(c, accepted[k].value, accepted[k].at, now);
  }

  /** Room is made only when there is none, the expired go before anyone, and then the oldest. */
  lemma EvictedExactly(before: Entries, after: Entries, now: Time, max: nat, d: Key)
    requires Trimmed(before, after, now, max) && d in before && d !in after
    ensures |before| > max && |after| <= max
    ensures before[d].expires <= now || (|after| == max && forall k <- after ::
      now < before[k].expires && before[d].seqNo < before[k].seqNo)
  {
  }
}

module ValidationRules {
  import opened Prelude
  import opened OcspCache
  import opened Validation

  /** A driver call is reported as it ended: revoked when the driver or the response says so,
      determined only when the call ended well and said something. */
  lemma LiveExactly(r: Reply)
    ensures var s := Live(r);
      && (s.revoked <==> r.status == Revoked || r.details.revoked)
      && (s.determinate <==> r.ending == Clean && (r.status == Good || r.status == Revoked))
      && (s.failed <==> r.ending == SoftFailure || r.ending == HardFailure)
      && s.reason == r.details.reason && s.revocationTime == r.details.revocationTime
      && s.thisUpdate == r.details.thisUpdate && s.nextUpdate == r.details.nextUpdate
      && s.producedAt == r.details.producedAt
  {
  }

  /** A revocation is told again as long as it is kept, and keeps to the longer lifetime. */
  lemma RevocationIsKept(c: Config, r: Reply, at: Time, now: Time)
    requires r.ending == Clean && (r.status == Revoked || r.details.revoked)
    ensures var a := Kept(Live(r), r.response);
      && Retold(a).revoked && Retold(a).determinate && !Retold(a).failed
      && (now < Expiry(c, a, at) <==>
        now < at + c.revokedTtl && (r.details.nextUpdate == None || now < r.details.nextUpdate.value))
  {
  }
}
