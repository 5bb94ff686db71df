/**
 The revocation check of a certificate over OCSP, with its cache: a live answer, how
 it is kept, and how it is told again.
 */
module Validation {
  import opened Prelude
  import opened OcspCache

  datatype DriverStatus = Good | Revoked | Unknown

  /** How the driver call ended; a soft failure is reported as an undetermined status. */
  datatype Ending = Clean | SoftFailure | HardFailure

  /** What the response itself said, when it could be parsed. */
  datatype Details = Details(revoked: bool, reason: string, revocationTime: Option<Time>, thisUpdate: Option<Time>,
                             nextUpdate: Option<Time>, producedAt: Option<Time>)

  datatype Reply = Reply(status: DriverStatus, ending: Ending, details: Details, response: Bytes)

  datatype Status = Status(determinate: bool, revoked: bool, reason: string, revocationTime: Option<Time>,
                           thisUpdate: Option<Time>,
                           nextUpdate: Option<Time>, producedAt: Option<Time>, failed: bool)

  /** The status reported from a driver call. */
  function Live(r: Reply): (s: Status) {
    Status(r.status != Unknown && r.ending == Clean, r.status == Revoked || r.details.revoked, r.details.reason,
           r.details.revocationTime, r.details.thisUpdate, r.details.nextUpdate, r.details.producedAt,
           r.ending != Clean)
  }

  /** What is kept of a clean answer. */
  function Kept(s: Status, response: Bytes): (a: Answer) {
    Answer(s.revoked, s.reason, s.revocationTime, s.thisUpdate, s.nextUpdate, s.producedAt, response)
  }

  /** A cached answer told again. */
  function Retold(a: Answer): (s: Status) {
    Status(true, a.revoked, a.reason, a.revocationTime, a.thisUpdate, a.nextUpdate, a.producedAt, false)
  }

  /** A clean answer is told again exactly as it was given if and only if the driver had
      determined something; an unknown status comes back as a determined one. */
  lemma RetoldFaithfully(r: Reply)
    requires r.ending == Clean
    ensures Retold(Kept(Live(r), r.response)) == Live(r) <==> r.status != Unknown
  {
  }

  /** The wrong turn, concretely: an unknown status is retold as determined and not revoked. */
  lemma UnknownRetoldAsGood(d: Details, response: Bytes)
    requires !d.revoked
    ensures var r := Reply(Unknown, Clean, d, response);
      !Live(r).determinate && Retold(Kept(Live(r), response)).determinate
    ensures var r := Reply(Unknown, Clean, d, response); !Retold(Kept(Live(r), response)).revoked
  {
  }

  datatype Outcome = Failed | Told(status: Status, fromCache: bool)

  class Validator {
    const cache: Cache
    ghost var replies: map<Key, Reply>

    /** Every accepted answer came from a clean driver call for its key. */
    ghost predicate Valid()
      reads this, cache
    {
      && cache.Valid() && cache.accepted.Keys <= replies.Keys
      && forall k <- cache.accepted ::
        replies[k].ending == Clean && cache.accepted[k].value == Kept(Live(replies[k]), replies[k].response)
    }

    constructor (c: Config)
      ensures Valid() && fresh(cache) && cache.accepted == map[]
    {
      cache := new Cache(c);
      replies := map[];
    }

    /** From the cache, the answer is the one the last accepted driver call gave, unless that
        call knew nothing; otherwise the driver is asked, and a clean fresh answer is kept. */
    method Validate(k: Key, now: Time, later: Time, reply: Reply) returns (out: Outcome)
      requires Valid()
      modifies this, cache
      ensures Valid()
      ensures out.Told? && out.fromCache <==> k in old(cache.entries) && now < old(cache.entries)[k].expires
      ensures out.Told? && out.fromCache ==>
        k in old(replies) && (out.status == Live(old(replies)[k]) <==> old(replies)[k].status != Unknown)
      ensures out.Told? && out.fromCache ==> replies == old(replies) && cache.accepted == old(cache.accepted)
      ensures out.Told? && !out.fromCache ==> out.status == Live(reply) && reply.ending != HardFailure
      ensures out.Failed? ==> reply.ending == HardFailure
      ensures !(out.Told? && out.fromCache) ==>
        var v := Kept(Live(reply), reply.response);
        if reply.ending == Clean && later < Expiry(cache.config, v, later)
        then replies == old(replies)[k := reply] && cache.accepted == old(cache.accepted)[k := Accepted(v, later)]
        else replies == old(replies) && cache.accepted == old(cache.accepted)
    {
      var hit := cache.Lookup(k, now);
      if hit.Some? {
        RetoldFaithfully(replies[k]);
        return Told(Retold(hit.value), true);
      }
      var status := Live(reply);
      if reply.ending == HardFailure { return Failed; }
      if reply.ending == SoftFailure { return Told(status, false); }
      var v := Kept(status, reply.response);
      cache.Store(k, v, later);
      if later < Expiry(cache.config, v, later) { replies := replies[k := reply]; }
      return Told(status, false);
    }
  }
}
