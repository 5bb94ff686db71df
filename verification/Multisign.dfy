/**
 Multi-signature rounds: a document that several people must sign, tracked until
 every requirement is met. The verifier is a fixed function from a document and a
 container to the people who signed it, plus a yes or no for each call.
 */
module Multisign {
  import opened Prelude

  datatype Status = Pending | Complete | Expired

  datatype Error =
    | NothingToSign | NobodyRequired | RequirementEmpty | UnknownFormat | VerifierFailed
    | NotFound | SessionClosed | Invalid | LostSigner | NotInvited | AlreadySigned | NoNewSigner

  /** What is signed. */
  datatype Document = Document(format: string, detached: bool, content: Bytes)

  /** A role, and what Unicode case folding makes of it: roles are compared by their folding. */
  datatype Role = Role(text: string, folded: string)

  datatype Person = Person(iin: string, bin: string, name: string, roles: seq<Role>)

  /** A person named by a verified container, with the signing time when it is known. */
  datatype Signer = Signer(who: Person, signedAt: Option<int>)

  datatype Required = Required(iin: string, bin: string, role: Role)

  /** A collected signature; satisfies is the requirement it fulfils, or -1. */
  datatype Signature = Signature(who: Person, signedAt: int, satisfies: int)

  datatype Session = Session(status: Status, document: Document, container: Bytes, required: seq<Required>,
                             minSigners: int, collected: seq<Signature>, expiresAt: int)

  datatype Request = Request(document: Document, container: Bytes, required: seq<Required>, minSigners: int,
                             ttlSeconds: int)

  /** Whether a container passed the verifier. */
  datatype Check = Passed | Refused(error: Error)

  type Reader = (Document, Bytes) -> seq<Signer>

  // ---------------------------------------------------------------- identity and matching

  function IdentityOf(p: Person): (r: string) {
    if p.iin != "" then "iin:" + p.iin else "bin:" + p.bin + "|" + p.name
  }

  /** Two signers count as one exactly when their personal numbers agree and, without one, the
      joined organisation number and name. */
  lemma IdentityTellsApart(p: Person, q: Person)
    ensures IdentityOf(p) == IdentityOf(q) <==>
      p.iin == q.iin && (p.iin == "" ==> p.bin + "|" + p.name == q.bin + "|" + q.name)
  {
    var a, b := IdentityOf(p), IdentityOf(q);
    if p.iin != "" && q.iin != "" {
      assert a[4..] == p.iin && b[4..] == q.iin;
    } else if p.iin == "" && q.iin == "" {
      assert a[4..] == p.bin + "|" + p.name && b[4..] == q.bin + "|" + q.name;
      assert a == "bin:" + (p.bin + "|" + p.name) && b == "bin:" + (q.bin + "|" + q.name);
    } else {
      assert a[0] != b[0];
    }
  }

  lemma CutAtBar(a: string, b: string, x: string, y: string)
    requires '|' !in a && '|' !in x && a + "|" + x == b + "|" + y
    ensures a == b && x == y
  {
    var s := a + "|" + x;
    assert forall k :: 0 <= k < |a| ==> s[k] == a[k];
    assert forall k :: |a| < k < |s| ==> s[k] == x[k - |a| - 1];
    assert s[|b|] == '|';
    assert a == s[..|a|] && b == s[..|b|] && x == s[|a| + 1..] && y == s[|b| + 1..];
  }

  /** Somebody without a personal number, and somebody else with the same identity. */
  predicate TakenFor(p: Person, q: Person) {
    IdentityOf(q) == IdentityOf(p) && !(q.iin == "" && q.bin == p.bin && q.name == p.name)
  }

  /** Without a personal number, a signer can be taken for somebody else if and only if a
      vertical bar occurs in the organisation number or in the name. */
  lemma TakenForAnother(p: Person)
    requires p.iin == ""
    ensures (exists q: Person :: TakenFor(p, q)) <==> '|' in p.bin || '|' in p.name
  {
    hide IdentityOf;
    if q: Person :| TakenFor(p, q) {
      IdentityTellsApart(p, q);
      if '|' !in p.bin && '|' !in p.name { CutAtBar(p.bin, q.bin, p.name, q.name); }
    }
    if '|' in p.bin {
      var k :| 0 <= k < |p.bin| && p.bin[k] == '|';
      assert p.bin == p.bin[..k] + "|" + p.bin[k + 1..];
      Shifted(p, p.(bin := p.bin[..k], name := p.bin[k + 1..] + "|" + p.name), p.bin[..k], p.bin[k + 1..], p.name);
    } else if '|' in p.name {
      var k :| 0 <= k < |p.name| && p.name[k] == '|';
      assert p.name == p.name[..k] + "|" + p.name[k + 1..];
      Shifted(p.(bin := p.bin + "|" + p.name[..k], name := p.name[k + 1..]), p, p.bin, p.name[..k], p.name[k + 1..]);
    }
  }

  lemma Shifted(p: Person, q: Person, x: string, y: string, z: string)
    requires p.iin == q.iin == "" && p.bin == x + "|" + y && p.name == z && q.bin == x && q.name == y + "|" + z
    ensures TakenFor(p, q) && TakenFor(q, p)
  {
    assert p.bin + "|" + p.name == q.bin + "|" + q.name;
    assert |p.bin| > |q.bin|;
    hide IdentityOf;
    IdentityTellsApart(p, q);
  }

  predicate Matches(r: Required, p: Person) {
    && (r.iin != "" ==> r.iin == p.iin)
    && (r.bin != "" ==> r.bin == p.bin)
    && (r.role.text != "" ==> exists i :: 0 <= i < |p.roles| && p.roles[i].folded == r.role.folded)
  }

  predicate Empty(r: Required) { r.iin == "" && r.bin == "" && r.role.text == "" }

  predicate Satisfied(collected: seq<Signature>, i: int) {
    exists k :: 0 <= k < |collected| && collected[k].satisfies == i
  }

  predicate Open(required: seq<Required>, collected: seq<Signature>, p: Person, i: nat)
    requires i < |required|
  {
    !Satisfied(collected, i) && Matches(required[i], p)
  }

  /** Every requirement has its signature, or enough signatures are in. */
  predicate Met(required: seq<Required>, minSigners: int, collected: seq<Signature>) {
    if |required| > 0 then forall i :: 0 <= i < |required| ==> Satisfied(collected, i) else |collected| >= minSigners
  }

  function Ids(collected: seq<Signature>): (r: set<string>) { set c <- collected :: IdentityOf(c.who) }

  function SignerIds(signers: seq<Signer>): (r: set<string>) { set s <- signers :: IdentityOf(s.who) }

  predicate Distinct(collected: seq<Signature>) {
    forall i, j :: 0 <= i < j < |collected| ==> IdentityOf(collected[i].who) != IdentityOf(collected[j].who)
  }

  predicate DistinctSigners(signers: seq<Signer>) {
    forall i, j :: 0 <= i < j < |signers| ==> IdentityOf(signers[i].who) != IdentityOf(signers[j].who)
  }

  // ---------------------------------------------------------------- collecting signatures

  /** The first requirement from k on that is still open and that this person meets, or -1. */
  function FirstOpen(required: seq<Required>, collected: seq<Signature>, p: Person, k: nat): (r: int)
    requires k <= |required|
    ensures r == -1 || k <= r < |required|
    ensures r >= 0 ==> Open(required, collected, p, r)
    ensures forall i: nat :: k <= i < |required| && (r == -1 || i < r) ==> !Open(required, collected, p, i)
    decreases |required| - k
  {
    if k == |required| then -1 else if Open(required, collected, p, k) then k
    else FirstOpen(required, collected, p, k + 1)
  }

  function Recorded(required: seq<Required>, collected: seq<Signature>, s: Signer, now: int): (r: Signature) {
    Signature(s.who, if s.signedAt.Some? then s.signedAt.value else now, FirstOpen(required, collected, s.who, 0))
  }

  /** Signatures a new session starts with: everyone in the seed container, uninvited or not. */
  function Seeded(required: seq<Required>, collected: seq<Signature>, signers: seq<Signer>, now: int)
    : (r: seq<Signature>)
    decreases |signers|
  {
    if |signers| == 0 then collected
    else Seeded(required, collected + [Recorded(required, collected, signers[0], now)], signers[1..], now)
  }

  /** Signatures after a submitted container: newcomers must find an open requirement. */
  function Absorbed(required: seq<Required>, collected: seq<Signature>, signers: seq<Signer>, now: int)
    : (r: Result<seq<Signature>, Error>)
    decreases |signers|
  {
    if |signers| == 0 then Ok(collected)
    else if IdentityOf(signers[0].who) in Ids(collected) then Absorbed(required, collected, signers[1..], now)
    else
      var rec := Recorded(required, collected, signers[0], now);
      if |required| > 0 && rec.satisfies < 0 then Err(Refusal(required, signers[0].who))
      else Absorbed(required, collected + [rec], signers[1..], now)
  }

  function Refusal(required: seq<Required>, p: Person): (e: Error) {
    if exists i :: 0 <= i < |required| && Matches(required[i], p) then AlreadySigned else NotInvited
  }

  // ---------------------------------------------------------------- operations on one session

  predicate KnownFormat(f: string) { f == "cms" || f == "xml" || f == "wsse" }

  function Created(read: Reader, defaultTtl: int, req: Request, check: Check, now: int): (r: Result<Session, Error>) {
    if |req.document.content| == 0 && |req.container| == 0 then Err(NothingToSign)
    else if |req.required| == 0 && req.minSigners <= 0 then Err(NobodyRequired)
    else if exists i :: 0 <= i < |req.required| && Empty(req.required[i]) then Err(RequirementEmpty)
    else
      var format := if req.document.format == "" then "cms" else req.document.format;
      if !KnownFormat(format) then Err(UnknownFormat) else
      var doc := req.document.(format := format);
      var ttl := if req.ttlSeconds > 0 then req.ttlSeconds else defaultTtl;
      var blank := Session(Pending, doc, req.container, req.required, req.minSigners, [], now + ttl);
      if |req.container| == 0 then Ok(blank)
      else if check.Refused? then Err(check.error)
      else Ok(Updated(blank, Seeded(req.required, [], read(doc, req.container), now)))
  }

  function Updated(s: Session, collected: seq<Signature>): (r: Session) {
    s.(collected := collected, status := if Met(s.required, s.minSigners, collected) then Complete else s.status)
  }

  function Aged(s: Session, now: int): (r: Session) {
    if s.status == Pending && s.expiresAt <= now then s.(status := Expired) else s
  }

  function Submitted(read: Reader, s: Session, container: Bytes, check: Check, now: int): (r: Result<Session, Error>) {
    if s.status != Pending then Err(SessionClosed)
    else if check.Refused? then Err(check.error)
    else
      var signers := read(s.document, container);
      if !(Ids(s.collected) <= SignerIds(signers)) then Err(LostSigner)
      else match Absorbed(s.required, s.collected, signers, now)
        case Err(e) => Err(e)
        case Ok(collected) =>
          if |collected| == |s.collected| then Err(NoNewSigner) else Ok(Updated(s.(container := container), collected))
  }

  // ---------------------------------------------------------------- the service over its store

  datatype Op =
    | Create(id: string, request: Request, check: Check, now: int)
    | Get(id: string, now: int)
    | Submit(id: string, container: Bytes, check: Check, now: int, later: int)
    | Cancel(id: string)

  type Store = map<string, Session>

  /** One whole operation on the store. */
  function StepStore(read: Reader, defaultTtl: int, store: Store, op: Op): (r: Store) {
    match op
    case Create(id, req, check, now) =>
      (match Created(read, defaultTtl, req, check, now) case Ok(s) => store[id := s] case Err(_) => store)
    case Get(id, now) => if id in store then store[id := Aged(store[id], now)] else store
    case Submit(id, container, check, now, later) =>
      if id !in store then store else
      var s := Aged(store[id], now);
      (match Submitted(read, s, container, check, later) case Ok(t) => store[id := t] case Err(_) => store[id := s])
    case Cancel(id) => store - {id}
  }

  class Service {
    var sessions: Store
    const read: Reader
    const defaultTtl: int

    constructor (read: Reader, ttl: int)
      ensures sessions == map[] && this.read == read
      ensures defaultTtl == if ttl <= 0 then 7 * 24 * 3600 else ttl
    {
      this.sessions, this.read, this.defaultTtl := map[], read, if ttl <= 0 then 7 * 24 * 3600 else ttl;
    }

    method Create(id: string, req: Request, check: Check, now: int) returns (r: Result<Session, Error>)
      modifies this
      ensures r == Created(read, defaultTtl, req, check, now)
      ensures sessions == StepStore(read, defaultTtl, old(sessions), Op.Create(id, req, check, now))
    {
      if |req.document.content| == 0 && |req.container| == 0 { return Err(NothingToSign); }
      if |req.required| == 0 && req.minSigners <= 0 { return Err(NobodyRequired); }
      for i := 0 to |req.required|
        invariant forall k :: 0 <= k < i ==> !Empty(req.required[k])
      {
        if Empty(req.required[i]) { return Err(RequirementEmpty); }
      }
      var format := req.document.format;
      if format == "" { format := "cms"; }
      if !KnownFormat(format) { return Err(UnknownFormat); }
      var ttl := defaultTtl;
      if req.ttlSeconds > 0 { ttl := req.ttlSeconds; }
      var doc := req.document.(format := format);
      var s := Session(Pending, doc, req.container, req.required, req.minSigners, [], now + ttl);
      if |req.container| > 0 {
        if check.Refused? { return Err(check.error); }
        var collected := SeedFrom(req.required, read(doc, req.container), now);
        s := s.(collected := collected);
        if Met(s.required, s.minSigners, collected) { s := s.(status := Complete); }
      }
      sessions := sessions[id := s];
      return Ok(s);
    }

    method Get(id: string, now: int) returns (r: Result<Session, Error>)
      modifies this
      ensures r == if id in old(sessions) then Ok(Aged(old(sessions)[id], now)) else Err(NotFound)
      ensures sessions == StepStore(read, defaultTtl, old(sessions), Op.Get(id, now))
    {
      if id !in sessions { return Err(NotFound); }
      var s := sessions[id];
      if s.status == Pending && s.expiresAt <= now { s := s.(status := Expired); }
      sessions := sessions[id := s];
      return Ok(s);
    }

    method Submit(id: string, container: Bytes, check: Check, now: int, later: int) returns (r: Result<Session, Error>)
      modifies this
      ensures id !in old(sessions) ==> r == Err(NotFound)
      ensures id in old(sessions) ==> r == Submitted(read, Aged(old(sessions)[id], now), container, check, later)
      ensures sessions == StepStore(read, defaultTtl, old(sessions), Op.Submit(id, container, check, now, later))
    {
      var got := Get(id, now);
      if got.Err? { return got; }
      var s := got.value;
      if s.status != Pending { return Err(SessionClosed); }
      if check.Refused? { return Err(check.error); }
      var signers := read(s.document, container);
      if !(Ids(s.collected) <= SignerIds(signers)) { return Err(LostSigner); }
      var grown := AbsorbAll(s.required, s.collected, signers, later);
      if grown.Err? { return Err(grown.error); }
      if |grown.value| == |s.collected| { return Err(NoNewSigner); }
      s := s.(container := container, collected := grown.value);
      if Met(s.required, s.minSigners, s.collected) { s := s.(status := Complete); }
      sessions := sessions[id := s];
      return Ok(s);
    }

    method Cancel(id: string)
      modifies this
      ensures sessions == StepStore(read, defaultTtl, old(sessions), Op.Cancel(id))
    {
      sessions := sessions - {id};
    }
  }

  /** The scan over the requirements for one signer. */
  method Record(required: seq<Required>, collected: seq<Signature>, s: Signer, now: int) returns (r: Signature)
    ensures r == Recorded(required, collected, s, now)
  {
    r := Signature(s.who, now, -1);
    if s.signedAt.Some? { r := r.(signedAt := s.signedAt.value); }
    for i := 0 to |required|
      invariant r == Signature(s.who, if s.signedAt.Some? then s.signedAt.value else now, -1)
      invariant FirstOpen(required, collected, s.who, 0) == FirstOpen(required, collected, s.who, i)
    {
      if !Satisfied(collected, i) && Matches(required[i], s.who) { return r.(satisfies := i); }
    }
  }

  method SeedFrom(required: seq<Required>, signers: seq<Signer>, now: int) returns (collected: seq<Signature>)
    ensures collected == Seeded(required, [], signers, now)
  {
    collected := [];
    for k := 0 to |signers|
      invariant Seeded(required, [], signers, now) == Seeded(required, collected, signers[k..], now)
    {
      var rec := Record(required, collected, signers[k], now);
      assert signers[k..][1..] == signers[k + 1..];
      collected := collected + [rec];
    }
  }

  method AbsorbAll(required: seq<Required>, before: seq<Signature>, signers: seq<Signer>, now: int)
    returns (r: Result<seq<Signature>, Error>)
    ensures r == Absorbed(required, before, signers, now)
  {
    var collected := before;
    for k := 0 to |signers|
      invariant Absorbed(required, before, signers, now) == Absorbed(required, collected, signers[k..], now)
    {
      assert signers[k..][1..] == signers[k + 1..];
      if IdentityOf(signers[k].who) in Ids(collected) { continue; }
      var rec := Record(required, collected, signers[k], now);
      if |required| > 0 && rec.satisfies < 0 {
        if exists i :: 0 <= i < |required| && Matches(required[i], signers[k].who) { return Err(AlreadySigned); }
        return Err(NotInvited);
      }
      collected := collected + [rec];
    }
    return Ok(collected);
  }
}
