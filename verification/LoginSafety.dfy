/**
 The login protocol as a machine: any number of verifications, authorizations and
 exchanges interleave, each holding its consumed challenge between its steps. The log
 keeps what was issued, in order.
 */
module LoginSafety {
  import opened Prelude
  import opened Login

  datatype Purpose = ForTokens(clientId: string) | ForCode(client: Client, request: AuthorizeRequest)

  /** An operation that has consumed its challenge and is still verifying the signature. */
  datatype Flight = Flight(id: string, challenge: Challenge, purpose: Purpose)

  datatype Event =
    | CodeIssued(id: string, code: string, client: Client, request: AuthorizeRequest, claims: Claims, at: Time,
                 challenge: Challenge, attempt: Attempt)
    | TokensForChallenge(id: string, clientId: string, nonce: string, claims: Claims, challenge: Challenge,
                         attempt: Attempt)
    | TokensForCode(code: string, exchange: TokenRequest, nonce: string, claims: Claims, at: Time)

  /** What became of a consumed challenge: held by an operation, or used by a logged event. */
  datatype Place = Held(flight: nat) | At(index: nat)

  /** The stores and running operations; the rest is history. */
  datatype State = State(challenges: Challenges, codes: Codes, flights: map<nat, Flight>,
                         log: seq<Event>, created: map<string, Challenge>, place: map<string, Place>,
                         issuedAt: map<string, nat>, redeemedAt: map<string, nat>)

  datatype Op =
    | IssueChallenge(id: string, challenge: Challenge)
    | BeginVerify(flight: nat, id: string, clientId: string)
    | BeginAuthorize(flight: nat, id: string, request: AuthorizeRequest)
    | Finish(flight: nat, attempt: Attempt, code: string, now: Time, signs: bool)
    | Exchange(exchange: TokenRequest, now: Time, signs: bool)
    | ReapChallenges(now: Time)
    | ReapCodes(now: Time)

  const Start := State(map[], map[], map[], [], map[], map[], map[], map[])

  /** Identifiers are drawn fresh. */
  predicate Enabled(s: State, op: Op) {
    match op
    case IssueChallenge(id, c) => id !in s.created && !c.used
    case BeginVerify(f, _, _) => f !in s.flights
    case BeginAuthorize(f, _, _) => f !in s.flights
    case Finish(f, _, code, _, _) => f in s.flights && code !in s.issuedAt
    case _ => true
  }

  function Consume(s: State, f: nat, id: string, purpose: Purpose): (t: State) {
    if !Available(s.challenges, id) then s
    else
      var c := s.challenges[id].(used := true);
      s.(challenges := Spent(s.challenges, id), flights := s.flights[f := Flight(id, c, purpose)],
        place := s.place[id := Held(f)])
  }

  function Complete(s: State, f: nat, a: Attempt, code: string, now: Time, signs: bool): (t: State)
    requires f in s.flights
  {
    var fl := s.flights[f];
    var done := s.(flights := s.flights - {f});
    match Identity(fl.challenge, a)
    case Err(_) => done
    case Ok(claims) =>
      match fl.purpose
      case ForTokens(client) =>
        if !signs then done else
        Logged(done, fl.id, TokensForChallenge(fl.id, client, fl.challenge.clientNonce, claims, fl.challenge, a))
      case ForCode(client, req) =>
        Coded(Logged(done, fl.id, CodeIssued(fl.id, code, client, req, claims, now, fl.challenge, a)), code, client,
              req, claims, now)
  }

  function Logged(s: State, id: string, e: Event): (t: State) {
    s.(log := s.log + [e], place := s.place[id := At(|s.log|)])
  }

  function Coded(s: State, code: string, client: Client, req: AuthorizeRequest, claims: Claims, now: Time): (t: State)
    requires |s.log| > 0
  {
    s.(codes := s.codes[code := IssuedCode(client, req, claims, now)],
       issuedAt := s.issuedAt[code := |s.log| - 1])
  }

  function Exchanged(clients: Clients, s256: string -> string, s: State, req: TokenRequest, now: Time,
                     signs: bool): (t: State) {
    if ClientCheck(clients, req).Some? || req.code !in s.codes then s
    else
      var c := s.codes[req.code];
      var taken := s.(codes := s.codes - {req.code});
      if !PaysFor(clients, s256, s.codes, req, now) || !signs then taken
      else taken.(log := s.log + [TokensForCode(req.code, req, c.nonce, c.claims, now)],
                  redeemedAt := s.redeemedAt[req.code := |s.log|])
  }

  function Apply(clients: Clients, s256: string -> string, s: State, op: Op): (t: State)
    requires Enabled(s, op)
  {
    match op
    case IssueChallenge(id, c) => s.(challenges := s.challenges[id := c], created := s.created[id := c])
    case BeginVerify(f, id, client) => Consume(s, f, id, ForTokens(client))
    case BeginAuthorize(f, id, req) =>
      (match ValidateAuthorize(clients, req)
       case Err(_) => s
       case Ok(client) => Consume(s, f, id, ForCode(client, req)))
    case Finish(f, a, code, now, signs) => Complete(s, f, a, code, now, signs)
    case Exchange(req, now, signs) => Exchanged(clients, s256, s, req, now, signs)
    case ReapChallenges(now) => s.(challenges := LiveChallenges(s.challenges, now))
    case ReapCodes(now) => s.(codes := LiveCodes(s.codes, now))
  }

  // ---------------------------------------------------------------- the invariant

  /** A challenge not yet consumed has no place, and places belong to challenges once created. */
  predicate Unspent(s: State) {
    && s.challenges.Keys <= s.created.Keys && s.place.Keys <= s.created.Keys
    && (forall id <- s.challenges :: !s.challenges[id].used ==> id !in s.place)
    && (forall id <- s.challenges :: SameChallenge(s.challenges[id], s.created[id]))
  }

  predicate FlightOk(clients: Clients, s: State, f: nat, fl: Flight) {
    && fl.id in s.place && s.place[fl.id] == Held(f)
    && fl.id in s.created && SameChallenge(fl.challenge, s.created[fl.id])
    && (fl.purpose.ForCode? ==> ValidateAuthorize(clients, fl.purpose.request) == Ok(fl.purpose.client))
  }

  predicate Flights(clients: Clients, s: State) {
    forall f <- s.flights :: FlightOk(clients, s, f, s.flights[f])
  }

  /** A stored code is the one logged when it was issued. */
  predicate CodeOk(s: State, code: string, c: AuthCode) {
    && code in s.issuedAt && s.issuedAt[code] < |s.log| && code !in s.redeemedAt
    && var e := s.log[s.issuedAt[code]];
    e.CodeIssued? && e.code == code && c == IssuedCode(e.client, e.request, e.claims, e.at)
  }

  predicate Stored(s: State) { forall code <- s.codes :: CodeOk(s, code, s.codes[code]) }

  /** The code an exchange was paid with, and the checks that passed. */
  predicate Backed(clients: Clients, s256: string -> string, issue: Event, e: Event)
    requires issue.CodeIssued? && e.TokensForCode?
  {
    && issue.code == e.code && e.claims == issue.claims && e.nonce == issue.request.nonce && e.at < issue.at + CODE_TTL
    && e.exchange.clientId == issue.client.id && e.exchange.redirectUri == issue.request.redirectUri
    && e.exchange.clientId in clients
    && (clients[e.exchange.clientId].secret != "" ==> e.exchange.clientSecret == clients[e.exchange.clientId].secret)
    && (issue.request.codeChallenge != "" ==> VerifyPkce(s256, issue.request.codeChallenge, e.exchange.codeVerifier))
  }

  /** The challenge is the one created under this id, and the attempt convinced. */
  predicate Proven(created: map<string, Challenge>, id: string, c: Challenge, a: Attempt, claims: Claims) {
    id in created && SameChallenge(c, created[id]) && Convincing(c, a) && claims == a.verdict.claims.value
  }

  predicate SameChallenge(c: Challenge, d: Challenge) { c.(used := false) == d.(used := false) }

  predicate EventOk(clients: Clients, s256: string -> string, s: State, i: nat, e: Event) {
    match e
    case CodeIssued(id, code, client, req, claims, _, challenge, attempt) =>
      && id in s.place && s.place[id] == At(i) && code in s.issuedAt && s.issuedAt[code] == i
      && ValidateAuthorize(clients, req) == Ok(client) && Proven(s.created, id, challenge, attempt, claims)
    case TokensForChallenge(id, _, nonce, claims, challenge, attempt) =>
      && id in s.place && s.place[id] == At(i)
      && nonce == challenge.clientNonce && Proven(s.created, id, challenge, attempt, claims)
    case TokensForCode(code, _, _, _, _) =>
      && code in s.redeemedAt && s.redeemedAt[code] == i && code in s.issuedAt && s.issuedAt[code] < i < |s.log|
      && s.log[s.issuedAt[code]].CodeIssued? && Backed(clients, s256, s.log[s.issuedAt[code]], e)
  }

  predicate History(clients: Clients, s256: string -> string, s: State) {
    forall i :: 0 <= i < |s.log| ==> EventOk(clients, s256, s, i, s.log[i])
  }

  /** A redeemed code had been issued. */
  predicate Redeemed(s: State) { s.redeemedAt.Keys <= s.issuedAt.Keys }

  ghost predicate Inv(clients: Clients, s256: string -> string, s: State) {
    Unspent(s) && Flights(clients, s) && Stored(s) && Redeemed(s) && History(clients, s256, s)
  }

  // ---------------------------------------------------------------- every step keeps it

  /** The facts about the log carry over when history only grows elsewhere. */
  lemma Kept(clients: Clients, s256: string -> string, s: State, t: State)
    requires Inv(clients, s256, s)
    requires s.log <= t.log && forall id :: id in s.created ==> id in t.created && t.created[id] == s.created[id]
    requires forall id :: id in s.place && s.place[id].At? ==> id in t.place && t.place[id] == s.place[id]
    requires forall c :: c in s.issuedAt ==> c in t.issuedAt && t.issuedAt[c] == s.issuedAt[c]
    requires forall c :: c in s.redeemedAt ==> c in t.redeemedAt && t.redeemedAt[c] == s.redeemedAt[c]
    ensures forall i :: 0 <= i < |s.log| ==> EventOk(clients, s256, t, i, t.log[i])
  {
    hide ValidateAuthorize, Backed, Convincing, SameChallenge;
    forall i | 0 <= i < |s.log| ensures EventOk(clients, s256, t, i, t.log[i]) {
      assert EventOk(clients, s256, s, i, s.log[i]) && t.log[i] == s.log[i];
    }
  }

  lemma IssueStep(clients: Clients, s256: string -> string, s: State, id: string, c: Challenge)
    requires Inv(clients, s256, s) && id !in s.created && !c.used
    ensures Inv(clients, s256, Apply(clients, s256, s, IssueChallenge(id, c)))
  {
    hide ValidateAuthorize, Backed, Proven, EventOk, CodeOk;
    var t := Apply(clients, s256, s, IssueChallenge(id, c));
    Kept(clients, s256, s, t);
    StoredKept(s, t);
    forall f | f in t.flights ensures FlightOk(clients, t, f, t.flights[f]) {
      assert FlightOk(clients, s, f, s.flights[f]);
    }
  }

  lemma ConsumeStep(clients: Clients, s256: string -> string, s: State, f: nat, id: string, purpose: Purpose)
    requires Inv(clients, s256, s) && f !in s.flights
    requires purpose.ForCode? ==> ValidateAuthorize(clients, purpose.request) == Ok(purpose.client)
    ensures Inv(clients, s256, Consume(s, f, id, purpose))
  {
    hide ValidateAuthorize, Backed, EventOk, CodeOk, FlightOk, Unspent;
    if Available(s.challenges, id) {
      var t := Consume(s, f, id, purpose);
      ConsumeUnspent(s, f, id, purpose);
      Kept(clients, s256, s, t);
      StoredKept(s, t);
      forall g | g in t.flights ensures FlightOk(clients, t, g, t.flights[g]) {
        ConsumeFlight(clients, s, f, id, purpose, g);
      }
    }
  }

  lemma ConsumeUnspent(s: State, f: nat, id: string, purpose: Purpose)
    requires Unspent(s) && Available(s.challenges, id)
    ensures Unspent(Consume(s, f, id, purpose)) && id !in s.place
  {
  }

  lemma ConsumeFlight(clients: Clients, s: State, f: nat, id: string, purpose: Purpose, g: nat)
    requires Unspent(s) && Available(s.challenges, id) && Flights(clients, s) && g in Consume(s, f, id, purpose).flights
    requires purpose.ForCode? ==> ValidateAuthorize(clients, purpose.request) == Ok(purpose.client)
    ensures var t := Consume(s, f, id, purpose); FlightOk(clients, t, g, t.flights[g])
  {
    hide ValidateAuthorize;
    if g != f { assert FlightOk(clients, s, g, s.flights[g]); }
  }

  lemma ProvenNow(clients: Clients, s: State, f: nat, fl: Flight, a: Attempt, claims: Claims)
    requires FlightOk(clients, s, f, fl) && Convincing(fl.challenge, a) && claims == a.verdict.claims.value
    ensures Proven(s.created, fl.id, fl.challenge, a, claims)
  {
    hide ValidateAuthorize, Convincing, SameChallenge;
  }

  /** An operation that ends with nothing to show. */
  lemma DropStep(clients: Clients, s256: string -> string, s: State, f: nat)
    requires Inv(clients, s256, s) && f in s.flights
    ensures Inv(clients, s256, s.(flights := s.flights - {f}))
  {
    hide ValidateAuthorize, Backed;
    Kept(clients, s256, s, s.(flights := s.flights - {f}));
  }

  /** An operation that logs what it made of its challenge. */
  lemma LogStep(clients: Clients, s256: string -> string, s: State, f: nat, fl: Flight, a: Attempt, claims: Claims)
    requires Inv(clients, s256, s) && f in s.flights && s.flights[f] == fl && fl.purpose.ForTokens?
    requires Convincing(fl.challenge, a) && claims == a.verdict.claims.value
    ensures Inv(clients, s256, Logged(s.(flights := s.flights - {f}), fl.id,
                                      TokensForChallenge(fl.id, fl.purpose.clientId, fl.challenge.clientNonce, claims,
                                                         fl.challenge, a)))
  {
    hide ValidateAuthorize, Backed, Convincing, SameChallenge, Proven;
    assert FlightOk(clients, s, f, fl);
    ProvenNow(clients, s, f, fl, a, claims);
    var t := Logged(s.(flights := s.flights - {f}), fl.id,
                    TokensForChallenge(fl.id, fl.purpose.clientId, fl.challenge.clientNonce, claims, fl.challenge, a));
    Kept(clients, s256, s, t);
    FlightsKept(clients, s, t, f, fl.id);
    StoredKept(s, t);
  }

  lemma FlightsKept(clients: Clients, s: State, t: State, f: nat, id: string)
    requires Flights(clients, s) && f in s.flights && s.flights[f].id == id
    requires t.flights == s.flights - {f} && t.place == s.place[id := At(|s.log|)] && t.created == s.created
    ensures Flights(clients, t)
  {
    hide ValidateAuthorize;
    assert FlightOk(clients, s, f, s.flights[f]);
    forall g | g in t.flights ensures FlightOk(clients, t, g, t.flights[g]) {
      assert FlightOk(clients, s, g, s.flights[g]);
    }
  }

  lemma StoredKept(s: State, t: State)
    requires Stored(s) && t.codes.Keys <= s.codes.Keys && (forall c <- t.codes :: t.codes[c] == s.codes[c])
      && s.log <= t.log
    requires t.issuedAt == s.issuedAt && forall c <- t.codes :: c in t.redeemedAt ==> c in s.redeemedAt
    ensures Stored(t)
  {
    forall c | c in t.codes ensures CodeOk(t, c, t.codes[c]) {
      assert CodeOk(s, c, s.codes[c]);
      assert t.log[s.issuedAt[c]] == s.log[s.issuedAt[c]];
    }
  }

  lemma CodeStep(clients: Clients, s256: string -> string, s: State, f: nat, fl: Flight, a: Attempt, claims: Claims,
                 code: string, now: Time)
    requires Inv(clients, s256, s) && f in s.flights && s.flights[f] == fl && fl.purpose.ForCode? && code !in s.issuedAt
    requires Convincing(fl.challenge, a) && claims == a.verdict.claims.value
    ensures var e := CodeIssued(fl.id, code, fl.purpose.client, fl.purpose.request, claims, now, fl.challenge, a);
      Inv(clients, s256,
          Coded(Logged(s.(flights := s.flights - {f}), fl.id, e), code, fl.purpose.client, fl.purpose.request,
                claims, now))
  {
    hide ValidateAuthorize, Backed, CodeOk, Convincing, SameChallenge, Proven;
    assert FlightOk(clients, s, f, fl);
    ProvenNow(clients, s, f, fl, a, claims);
    var e := CodeIssued(fl.id, code, fl.purpose.client, fl.purpose.request, claims, now, fl.challenge, a);
    var t := Coded(Logged(s.(flights := s.flights - {f}), fl.id, e), code, fl.purpose.client, fl.purpose.request,
      claims, now);
    Kept(clients, s256, s, t);
    FlightsKept(clients, s, t, f, fl.id);
    StoredAdd(s, t, code, e);
  }

  lemma StoredAdd(s: State, t: State, code: string, e: Event)
    requires Stored(s) && Redeemed(s) && code !in s.issuedAt && e.CodeIssued? && e.code == code
    requires t.log == s.log + [e] && t.issuedAt == s.issuedAt[code := |s.log|] && t.redeemedAt == s.redeemedAt
    requires t.codes == s.codes[code := IssuedCode(e.client, e.request, e.claims, e.at)]
    ensures Stored(t)
  {
    forall c | c in t.codes ensures CodeOk(t, c, t.codes[c]) {
      if c != code {
        assert CodeOk(s, c, s.codes[c]);
        assert t.log[s.issuedAt[c]] == s.log[s.issuedAt[c]];
      }
    }
  }

  lemma FinishStep(clients: Clients, s256: string -> string, s: State, f: nat, a: Attempt, code: string, now: Time,
                   signs: bool)
    requires Inv(clients, s256, s) && f in s.flights && code !in s.issuedAt
    ensures Inv(clients, s256, Complete(s, f, a, code, now, signs))
  {
    hide Inv, Logged, Coded;
    var fl := s.flights[f];
    var r := Identity(fl.challenge, a);
    IdentityExactly(fl.challenge, a);
    DropStep(clients, s256, s, f);
    if r.Ok? {
      if fl.purpose.ForTokens? {
        LogStep(clients, s256, s, f, fl, a, r.value);
      } else {
        CodeStep(clients, s256, s, f, fl, a, r.value, code, now);
      }
    }
  }

  lemma TakeStep(clients: Clients, s256: string -> string, s: State, code: string)
    requires Inv(clients, s256, s)
    ensures Inv(clients, s256, s.(codes := s.codes - {code}))
  {
    ReapStep(clients, s256, s, s.challenges, s.codes - {code});
  }

  lemma RedeemStep(clients: Clients, s256: string -> string, s: State, req: TokenRequest, c: AuthCode, now: Time)
    requires Inv(clients, s256, s) && req.code in s.codes && s.codes[req.code] == c
    requires ClientCheck(clients, req).None? && !Past(c.expiresAt, now) && CodeCheck(s256, c, req).None?
    ensures Inv(clients, s256,
      s.(codes := s.codes - {req.code}, log := s.log + [TokensForCode(req.code, req, c.nonce, c.claims, now)],
                                  redeemedAt := s.redeemedAt[req.code := |s.log|]))
  {
    hide ValidateAuthorize, EventOk, CodeOk, FlightOk, ClientCheck, CodeCheck, Backed, Past;
    var e := TokensForCode(req.code, req, c.nonce, c.claims, now);
    var t := s.(codes := s.codes - {req.code}, log := s.log + [e], redeemedAt := s.redeemedAt[req.code := |s.log|]);
    CodeKnown(s, req.code);
    Kept(clients, s256, s, t);
    StoredKept(s, t);
    SameFlights(clients, s, t);
    RedeemEvent(clients, s256, s, t, req, c, now);
  }

  lemma CodeKnown(s: State, code: string)
    requires Stored(s) && code in s.codes
    ensures CodeOk(s, code, s.codes[code]) && code in s.issuedAt && code !in s.redeemedAt
  {
  }

  lemma RedeemEvent(clients: Clients, s256: string -> string, s: State, t: State, req: TokenRequest, c: AuthCode,
                    now: Time)
    requires CodeOk(s, req.code, c) && t.issuedAt == s.issuedAt && t.redeemedAt == s.redeemedAt[req.code := |s.log|]
    requires t.log == s.log + [TokensForCode(req.code, req, c.nonce, c.claims, now)]
    requires ClientCheck(clients, req).None? && !Past(c.expiresAt, now) && CodeCheck(s256, c, req).None?
    ensures EventOk(clients, s256, t, |s.log|, t.log[|s.log|])
  {
    hide ClientCheck, CodeCheck, Backed, Past, ValidateAuthorize;
    var i := s.issuedAt[req.code];
    BackedNow(clients, s256, s.log[i], req, c, now);
    assert t.log[i] == s.log[i];
  }

  lemma BackedNow(clients: Clients, s256: string -> string, issue: Event, req: TokenRequest, c: AuthCode, now: Time)
    requires issue.CodeIssued? && issue.code == req.code
    requires c == IssuedCode(issue.client, issue.request, issue.claims, issue.at)
    requires ClientCheck(clients, req).None? && !Past(c.expiresAt, now) && CodeCheck(s256, c, req).None?
    ensures Backed(clients, s256, issue, TokensForCode(req.code, req, c.nonce, c.claims, now))
  {
  }

  lemma SameFlights(clients: Clients, s: State, t: State)
    requires Flights(clients, s) && t.flights == s.flights && t.place == s.place && t.created == s.created
    ensures Flights(clients, t)
  {
    hide ValidateAuthorize;
    assert forall f <- t.flights :: FlightOk(clients, s, f, s.flights[f]);
  }

  lemma ExchangeStep(clients: Clients, s256: string -> string, s: State, req: TokenRequest, now: Time, signs: bool)
    requires Inv(clients, s256, s)
    ensures Inv(clients, s256, Exchanged(clients, s256, s, req, now, signs))
  {
    hide Inv, ClientCheck, CodeCheck, Past;
    if req.code in s.codes && ClientCheck(clients, req).None? {
      var c := s.codes[req.code];
      TakeStep(clients, s256, s, req.code);
      if !Past(c.expiresAt, now) && CodeCheck(s256, c, req).None? { RedeemStep(clients, s256, s, req, c, now); }
    }
  }

  lemma ReapStep(clients: Clients, s256: string -> string, s: State, challenges: Challenges, codes: Codes)
    requires Inv(clients, s256, s)
    requires challenges.Keys <= s.challenges.Keys && forall id <- challenges :: challenges[id] == s.challenges[id]
    requires codes.Keys <= s.codes.Keys && forall c <- codes :: codes[c] == s.codes[c]
    ensures Inv(clients, s256, s.(challenges := challenges, codes := codes))
  {
    hide ValidateAuthorize, Backed, EventOk, CodeOk, FlightOk;
    var t := s.(challenges := challenges, codes := codes);
    Kept(clients, s256, s, t);
    StoredKept(s, t);
    SameFlights(clients, s, t);
  }

  lemma StepInv(clients: Clients, s256: string -> string, s: State, op: Op)
    requires Inv(clients, s256, s) && Enabled(s, op)
    ensures Inv(clients, s256, Apply(clients, s256, s, op))
  {
    hide Inv, ValidateAuthorize, Consume, Complete, Exchanged;
    match op
    case IssueChallenge(id, c) => IssueStep(clients, s256, s, id, c);
    case BeginVerify(f, id, client) => ConsumeStep(clients, s256, s, f, id, ForTokens(client));
    case BeginAuthorize(f, id, req) =>
      if ValidateAuthorize(clients, req).Ok? {
        ConsumeStep(clients, s256, s, f, id, ForCode(ValidateAuthorize(clients, req).value, req));
      }
    case Finish(f, a, code, now, signs) => FinishStep(clients, s256, s, f, a, code, now, signs);
    case Exchange(req, now, signs) => ExchangeStep(clients, s256, s, req, now, signs);
    case ReapChallenges(now) =>
      ReapStep(clients, s256, s, LiveChallenges(s.challenges, now), s.codes);
    case ReapCodes(now) =>
      ReapStep(clients, s256, s, s.challenges, LiveCodes(s.codes, now));
  }

  // ---------------------------------------------------------------- runs

  /** A run of the machine: operations that cannot happen are passed over. */
  function Run(clients: Clients, s256: string -> string, ops: seq<Op>): (s: State) {
    if |ops| == 0 then Start else
    var r := Run(clients, s256, ops[..|ops| - 1]);
    if Enabled(r, ops[|ops| - 1]) then Apply(clients, s256, r, ops[|ops| - 1]) else r
  }

  lemma {:induction false} RunInv(clients: Clients, s256: string -> string, ops: seq<Op>)
    ensures Inv(clients, s256, Run(clients, s256, ops))
  {
    hide Apply, Inv;
    if |ops| > 0 {
      var r := Run(clients, s256, ops[..|ops| - 1]);
      RunInv(clients, s256, ops[..|ops| - 1]);
      if Enabled(r, ops[|ops| - 1]) { StepInv(clients, s256, r, ops[|ops| - 1]); }
    } else {
      StartInv(clients, s256);
    }
  }

  lemma StartInv(clients: Clients, s256: string -> string)
    ensures Inv(clients, s256, Start)
  {
  }

  // ---------------------------------------------------------------- the guarantees

  predicate IssuesTokens(e: Event) { e.TokensForChallenge? || e.TokensForCode? }

  /** The challenge behind a token issuance. */
  function Origin(s: State, e: Event): (id: Option<string>) {
    match e
    case CodeIssued(id, _, _, _, _, _, _, _) => Some(id)
    case TokensForChallenge(id, _, _, _, _, _) => Some(id)
    case TokensForCode(code, _, _, _, _) =>
      if code in s.issuedAt && s.issuedAt[code] < |s.log| && s.log[s.issuedAt[code]].CodeIssued?
      then Some(s.log[s.issuedAt[code]].id)
      else None
  }

  /** In every run tokens are issued at most once for a challenge, over both grants, and always
      for one that was consumed. */
  lemma OneIssuancePerChallenge(clients: Clients, s256: string -> string, ops: seq<Op>, s: State, i: nat, j: nat)
    requires s == Run(clients, s256, ops) && i < j < |s.log| && IssuesTokens(s.log[i]) && IssuesTokens(s.log[j])
    ensures Origin(s, s.log[i]).Some? && Origin(s, s.log[j]).Some? && Origin(s, s.log[i]) != Origin(s, s.log[j])
  {
    hide Run, ValidateAuthorize, Backed;
    RunInv(clients, s256, ops);
    assert EventOk(clients, s256, s, i, s.log[i]) && EventOk(clients, s256, s, j, s.log[j]);
    if s.log[i].TokensForCode? { Traced(clients, s256, s, i); }
    if s.log[j].TokensForCode? { Traced(clients, s256, s, j); }
  }

  lemma Traced(clients: Clients, s256: string -> string, s: State, i: nat)
    requires Inv(clients, s256, s) && i < |s.log| && s.log[i].TokensForCode?
    ensures var code := s.log[i].code;
      && code in s.issuedAt && s.issuedAt[code] < i && s.log[s.issuedAt[code]].CodeIssued?
      && s.log[s.issuedAt[code]].code == code && s.log[s.issuedAt[code]].id in s.place
      && s.place[s.log[s.issuedAt[code]].id] == At(s.issuedAt[code])
  {
    hide ValidateAuthorize;
    var code := s.log[i].code;
    assert EventOk(clients, s256, s, i, s.log[i]);
    assert EventOk(clients, s256, s, s.issuedAt[code], s.log[s.issuedAt[code]]);
  }

  /** A challenge feeds at most one direct verification or authorization. */
  lemma OneUsePerChallenge(clients: Clients, s256: string -> string, ops: seq<Op>, s: State, i: nat, j: nat)
    requires s == Run(clients, s256, ops) && i < j < |s.log| && !s.log[i].TokensForCode? && !s.log[j].TokensForCode?
    ensures s.log[i].id != s.log[j].id
  {
    hide Run, ValidateAuthorize, Backed;
    RunInv(clients, s256, ops);
    assert EventOk(clients, s256, s, i, s.log[i]) && EventOk(clients, s256, s, j, s.log[j]);
  }

  /** In every run whatever was issued goes back to an attempt that proved who answered, made while
      the challenge created under that id was unexpired. */
  lemma EveryIssueIsProven(clients: Clients, s256: string -> string, ops: seq<Op>, s: State, i: nat)
    requires s == Run(clients, s256, ops) && i < |s.log|
    ensures !s.log[i].TokensForCode? ==>
      Proven(s.created, s.log[i].id, s.log[i].challenge, s.log[i].attempt, s.log[i].claims)
    ensures s.log[i].TokensForCode? ==>
      s.log[i].code in s.issuedAt &&
      var k := s.issuedAt[s.log[i].code];
      k < i && s.log[k].CodeIssued? && s.log[k].claims == s.log[i].claims &&
      Proven(s.created, s.log[k].id, s.log[k].challenge, s.log[k].attempt, s.log[i].claims)
  {
    hide Run, ValidateAuthorize, Proven;
    RunInv(clients, s256, ops);
    assert EventOk(clients, s256, s, i, s.log[i]);
    if s.log[i].TokensForCode? {
      Traced(clients, s256, s, i);
      var k := s.issuedAt[s.log[i].code];
      assert EventOk(clients, s256, s, k, s.log[k]);
    }
  }

  /** The authorization an exchange goes back to. */
  ghost predicate GoesBackTo(clients: Clients, s256: string -> string, issue: Event, e: Event)
    requires e.TokensForCode?
  {
    && issue.CodeIssued? && issue.code == e.code && e.claims == issue.claims && e.nonce == issue.request.nonce
    && e.exchange.clientId == issue.request.clientId && e.exchange.redirectUri == issue.request.redirectUri
    && e.exchange.clientId in clients && e.exchange.redirectUri in clients[e.exchange.clientId].redirectUris
    && e.at < issue.at + 60
    && (clients[e.exchange.clientId].secret == "" ==>
        issue.request.codeChallenge != "" && issue.request.codeChallenge == s256(e.exchange.codeVerifier))
    && (clients[e.exchange.clientId].secret != "" ==> e.exchange.clientSecret == clients[e.exchange.clientId].secret)
  }

  /** In every run a successful exchange goes back to an earlier authorization by the same client
      with the same redirect address, and no two exchanges to the same one. A public client
      presented the preimage of its PKCE challenge, a confidential one its secret. */
  lemma ExchangeIsBacked(clients: Clients, s256: string -> string, ops: seq<Op>, s: State, i: nat)
    requires Registry(clients) && s == Run(clients, s256, ops) && i < |s.log| && s.log[i].TokensForCode?
    ensures s.log[i].code in s.issuedAt && s.issuedAt[s.log[i].code] < i
    ensures GoesBackTo(clients, s256, s.log[s.issuedAt[s.log[i].code]], s.log[i])
    ensures forall j :: 0 <= j < |s.log| && j != i && s.log[j].TokensForCode? ==> s.log[j].code != s.log[i].code
  {
    hide Run, NamesS256;
    RunInv(clients, s256, ops);
    Traced(clients, s256, s, i);
    var k := s.issuedAt[s.log[i].code];
    assert EventOk(clients, s256, s, i, s.log[i]) && EventOk(clients, s256, s, k, s.log[k]);
    forall j | 0 <= j < |s.log| && j != i && s.log[j].TokensForCode? ensures s.log[j].code != s.log[i].code {
      assert EventOk(clients, s256, s, j, s.log[j]);
    }
  }
}
