/**
 Login: single-use challenges, authorization codes bound to a client, a redirect
 address and a PKCE challenge, and the two grants that turn a signed challenge into
 tokens (sections 4.1.2 and 4.1.3 of RFC 6749, section 4.6 of RFC 7636).
 */
module Login {
  import opened Prelude

  type Time = int

  datatype Error =
    | ChallengeNotFound | ChallengeUsed | ChallengeExpired | SignatureRejected | CertRevoked | VerifierFailed
    | UnknownClient | RedirectMismatch | UnsupportedFlow | PkceRequired | PkceFailed | CodeInvalid | ClientAuth
    | SigningFailed

  // ---------------------------------------------------------------- challenges

  datatype Challenge = Challenge(nonce: Bytes, clientNonce: string, expiresAt: Time, used: bool)

  type Challenges = map<string, Challenge>

  predicate Past(expiresAt: Time, now: Time) { expiresAt <= now }

  function LiveChallenges(m: Challenges, now: Time): (r: Challenges) {
    map id | id in m && !Past(m[id].expiresAt, now) :: m[id]
  }

  predicate Available(m: Challenges, id: string) { id in m && !m[id].used }

  /** The store once the challenge has been handed out. */
  function Spent(m: Challenges, id: string): (r: Challenges) {
    if Available(m, id) then m[id := m[id].(used := true)] else m
  }

  class ChallengeStore {
    var challenges: Challenges

    constructor ()
      ensures challenges == map[]
    {
      challenges := map[];
    }

    method Create(id: string, c: Challenge)
      modifies this
      ensures challenges == old(challenges)[id := c]
    {
      challenges := challenges[id := c];
    }

    /** Hands a challenge out once: a second call for it, at any later time, is refused. */
    method Consume(id: string) returns (r: Result<Challenge, Error>)
      modifies this
      ensures challenges == Spent(old(challenges), id)
      ensures r.Ok? <==> Available(old(challenges), id)
      ensures r.Ok? ==> r.value == old(challenges)[id].(used := true)
      ensures r.Err? ==> r.error == if id in old(challenges) then ChallengeUsed else ChallengeNotFound
    {
      if id !in challenges { return Err(ChallengeNotFound); }
      var c := challenges[id];
      if c.used { return Err(ChallengeUsed); }
      c := c.(used := true);
      challenges := challenges[id := c];
      return Ok(c);
    }

    method Reap(now: Time) returns (n: nat)
      modifies this
      ensures challenges == LiveChallenges(old(challenges), now)
      ensures n == |old(challenges)| - |challenges|
    {
      n := 0;
      var todo := challenges.Keys;
      while todo != {}
        invariant todo <= challenges.Keys <= old(challenges).Keys
        invariant forall id :: id in old(challenges) && id !in challenges ==> Past(old(challenges)[id].expiresAt, now)
        invariant forall id :: id in challenges ==>
          challenges[id] == old(challenges)[id] && (id in todo || !Past(challenges[id].expiresAt, now))
        invariant n == |old(challenges)| - |challenges|
        decreases |todo|
      {
        var id :| id in todo;
        todo := todo - {id};
        if Past(challenges[id].expiresAt, now) {
          assert |(challenges - {id}).Keys| == |challenges| - 1 by {
            assert (challenges - {id}).Keys == challenges.Keys - {id};
          }
          challenges := challenges - {id};
          n := n + 1;
        }
      }
      assert challenges == LiveChallenges(old(challenges), now);
    }
  }

  // ---------------------------------------------------------------- authorization codes

  const CODE_TTL := 60

  datatype Claims = Claims(sub: string, rest: string)

  datatype AuthCode = AuthCode(clientId: string, redirectUri: string, nonce: string, claims: Claims,
                               codeChallenge: string, expiresAt: Time)

  type Codes = map<string, AuthCode>

  function LiveCodes(m: Codes, now: Time): (r: Codes) {
    map k | k in m && !Past(m[k].expiresAt, now) :: m[k]
  }

  class CodeStore {
    var codes: Codes

    constructor ()
      ensures codes == map[]
    {
      codes := map[];
    }

    method Put(code: string, c: AuthCode)
      modifies this
      ensures codes == old(codes)[code := c]
    {
      codes := codes[code := c];
    }

    /** A code is gone once presented, whether it was still good or not. */
    method Take(code: string, now: Time) returns (r: Option<AuthCode>)
      modifies this
      ensures codes == old(codes) - {code}
      ensures r.Some? <==> code in old(codes) && !Past(old(codes)[code].expiresAt, now)
      ensures r.Some? ==> r.value == old(codes)[code]
    {
      if code !in codes { return None; }
      var c := codes[code];
      codes := codes - {code};
      if Past(c.expiresAt, now) { return None; }
      return Some(c);
    }

    method Reap(now: Time)
      modifies this
      ensures codes == LiveCodes(old(codes), now)
    {
      var todo := codes.Keys;
      while todo != {}
        invariant todo <= codes.Keys <= old(codes).Keys
        invariant forall k :: k in old(codes) && k !in codes ==> Past(old(codes)[k].expiresAt, now)
        invariant forall k :: k in codes ==> codes[k] == old(codes)[k] && (k in todo || !Past(codes[k].expiresAt, now))
        decreases |todo|
      {
        var k :| k in todo;
        todo := todo - {k};
        if Past(codes[k].expiresAt, now) { codes := codes - {k}; }
      }
      assert codes == LiveCodes(old(codes), now);
    }
  }

  // ---------------------------------------------------------------- clients and requests

  /** A client without a secret is public. */
  datatype Client = Client(id: string, secret: string, redirectUris: seq<string>)

  type Clients = map<string, Client>

  /** Clients are registered under their own identifiers. */
  ghost predicate Registry(clients: Clients) { forall k <- clients :: clients[k].id == k }

  datatype AuthorizeRequest = AuthorizeRequest(clientId: string, redirectUri: string, responseType: string,
                                               nonce: string,
                                               codeChallenge: string, codeChallengeMethod: string)

  datatype TokenRequest = TokenRequest(grantType: string, code: string, redirectUri: string, clientId: string,
                                       clientSecret: string, codeVerifier: string)

  /** Every spelling Unicode case folding takes for S256, the long s among them. */
  predicate NamesS256(m: string) { m == "S256" || m == "s256" || m == "\U{017F}256" }

  function ValidateAuthorize(clients: Clients, req: AuthorizeRequest): (r: Result<Client, Error>) {
    if req.clientId !in clients then Err(UnknownClient) else
    var client := clients[req.clientId];
    if req.redirectUri == "" || req.redirectUri !in client.redirectUris then Err(RedirectMismatch)
    else if req.responseType != "code" then Err(UnsupportedFlow)
    else if client.secret == "" && (req.codeChallenge == "" || !NamesS256(req.codeChallengeMethod)) then
      Err(PkceRequired)
    else if req.codeChallenge != "" && !NamesS256(req.codeChallengeMethod) then Err(PkceRequired)
    else Ok(client)
  }

  predicate VerifyPkce(s256: string -> string, challenge: string, verifier: string) {
    verifier != "" && challenge == s256(verifier)
  }

  // ---------------------------------------------------------------- the identity half

  /** What the signature verifier reported. */
  datatype Verdict = Failed | NotValid | Signed(claims: Option<Claims>)

  datatype Revocation = CheckFailed | Revoked | NotRevoked

  /** One attempt to answer a challenge: the clock, the signature, and what the verifiers said. */
  datatype Attempt = Attempt(now: Time, signature: Bytes, verdict: Verdict, requireOcsp: bool, revocation: Revocation)

  function Identity(c: Challenge, a: Attempt): (r: Result<Claims, Error>) {
    if Past(c.expiresAt, a.now) then Err(ChallengeExpired)
    else if |a.signature| == 0 then Err(SignatureRejected)
    else if a.verdict == Failed then Err(VerifierFailed)
    else if a.verdict == NotValid || a.verdict.claims.None? || a.verdict.claims.value.sub == "" then
      Err(SignatureRejected)
    else if a.requireOcsp && a.revocation == CheckFailed then Err(VerifierFailed)
    else if a.requireOcsp && a.revocation == Revoked then Err(CertRevoked)
    else Ok(a.verdict.claims.value)
  }

  /** An attempt that proves who answered: in time, signed, the signature valid and naming a
      subject, and, where that is demanded, the certificate looked up and not revoked. */
  predicate Convincing(c: Challenge, a: Attempt) {
    && a.now < c.expiresAt && a.signature != []
    && a.verdict.Signed? && a.verdict.claims.Some? && a.verdict.claims.value.sub != ""
    && (a.requireOcsp ==> a.revocation == NotRevoked)
  }

  /** A person is named exactly by a convincing attempt, and then it is the one in the claims;
      each refusal has its own error. */
  lemma IdentityExactly(c: Challenge, a: Attempt)
    ensures var r := Identity(c, a);
      && (r.Ok? <==> Convincing(c, a)) && (r.Ok? ==> r.value == a.verdict.claims.value)
      && (r == Err(ChallengeExpired) <==> c.expiresAt <= a.now)
      && (r == Err(CertRevoked) <==>
        a.requireOcsp && a.revocation == Revoked && Convincing(c, a.(requireOcsp := false)))
  {
  }

  // ---------------------------------------------------------------- the token endpoint

  /** The checks of an exchange that come before the code is touched. */
  function ClientCheck(clients: Clients, req: TokenRequest): (r: Option<Error>) {
    if req.grantType != "authorization_code" then Some(UnsupportedFlow)
    else if req.clientId !in clients then Some(UnknownClient)
    else if clients[req.clientId].secret != "" && clients[req.clientId].secret != req.clientSecret then Some(ClientAuth)
    else None
  }

  /** The checks made of a code once it has been taken out of the store. */
  function CodeCheck(s256: string -> string, c: AuthCode, req: TokenRequest): (r: Option<Error>) {
    if c.clientId != req.clientId || c.redirectUri != req.redirectUri then Some(CodeInvalid)
    else if c.codeChallenge != "" && !VerifyPkce(s256, c.codeChallenge, req.codeVerifier) then Some(PkceFailed)
    else None
  }

  // ---------------------------------------------------------------- the provider

  class Provider {
    const clients: Clients
    const s256: string -> string
    const challenges: ChallengeStore
    const codes: CodeStore

    constructor (clients: Clients, s256: string -> string)
      ensures this.clients == clients && this.s256 == s256 && fresh(challenges) && fresh(codes)
      ensures challenges.challenges == map[] && codes.codes == map[]
    {
      this.clients, this.s256 := clients, s256;
      challenges := new ChallengeStore();
      codes := new CodeStore();
    }

    /** An attempt spends its challenge whatever comes of it. */
    method VerifySignature(id: string, a: Attempt) returns (r: Result<(Claims, string), Error>)
      modifies challenges
      ensures challenges.challenges == Spent(old(challenges.challenges), id)
      ensures r.Ok? <==> Available(old(challenges.challenges), id) && Convincing(old(challenges.challenges)[id], a)
      ensures r.Ok? ==> r.value == (a.verdict.claims.value, old(challenges.challenges)[id].clientNonce)
    {
      var c := challenges.Consume(id);
      if c.Err? { return Err(c.error); }
      if Past(c.value.expiresAt, a.now) { return Err(ChallengeExpired); }
      if |a.signature| == 0 { return Err(SignatureRejected); }
      if a.verdict == Failed { return Err(VerifierFailed); }
      if a.verdict == NotValid { return Err(SignatureRejected); }
      if a.verdict.claims.None? || a.verdict.claims.value.sub == "" { return Err(SignatureRejected); }
      if a.requireOcsp {
        if a.revocation == CheckFailed { return Err(VerifierFailed); }
        if a.revocation == Revoked { return Err(CertRevoked); }
      }
      return Ok((a.verdict.claims.value, c.value.clientNonce));
    }

    /** A code is stored exactly when the request is valid and the challenge was answered; a
        refused request spends no challenge. The browser learns the code only if the redirect
        address parses, which is looked at last. */
    method CompleteAuthorization(req: AuthorizeRequest, id: string, a: Attempt, code: string, now: Time, parses: bool)
      returns (r: Result<string, Error>)
      modifies challenges, codes
      ensures var client, before := ValidateAuthorize(clients, req), old(challenges.challenges);
        var issues := client.Ok? && Available(before, id) && Convincing(before[id], a);
        && challenges.challenges == (if client.Ok? then Spent(before, id) else before)
        && (!issues ==> codes.codes == old(codes.codes))
        && (issues ==>
              codes.codes == old(codes.codes)[code := IssuedCode(client.value, req, a.verdict.claims.value, now)])
        && (r.Ok? <==> issues && parses) && (r.Ok? ==> r.value == code)
        && (issues && !parses ==> r == Err(RedirectMismatch))
    {
      hide ValidateAuthorize;
      var client := ValidateAuthorize(clients, req);
      if client.Err? { return Err(client.error); }
      var who := VerifySignature(id, a);
      if who.Err? { return Err(who.error); }
      codes.Put(code, IssuedCode(client.value, req, who.value.0, now));
      if !parses { return Err(RedirectMismatch); }
      return Ok(code);
    }

    /** A code is spent by the first well-authenticated request that names it, and pays for
        tokens exactly when every binding recorded with it holds. */
    method Exchange(req: TokenRequest, now: Time, signs: bool) returns (r: Result<(Claims, string), Error>)
      modifies codes
      ensures codes.codes == if ClientCheck(clients, req).None? then old(codes.codes) - {req.code} else old(codes.codes)
      ensures r.Ok? <==> PaysFor(clients, s256, old(codes.codes), req, now) && signs
      ensures r.Ok? ==> r.value == (old(codes.codes)[req.code].claims, old(codes.codes)[req.code].nonce)
    {
      hide VerifyPkce;
      if req.grantType != "authorization_code" { return Err(UnsupportedFlow); }
      if req.clientId !in clients { return Err(UnknownClient); }
      var client := clients[req.clientId];
      if client.secret != "" && client.secret != req.clientSecret { return Err(ClientAuth); }
      var taken := codes.Take(req.code, now);
      if taken.None? { return Err(CodeInvalid); }
      var c := taken.value;
      if c.clientId != req.clientId || c.redirectUri != req.redirectUri { return Err(CodeInvalid); }
      if c.codeChallenge != "" && !VerifyPkce(s256, c.codeChallenge, req.codeVerifier) { return Err(PkceFailed); }
      if !signs { return Err(SigningFailed); }
      return Ok((c.claims, c.nonce));
    }
  }

  function IssuedCode(client: Client, req: AuthorizeRequest, claims: Claims, now: Time): (c: AuthCode) {
    AuthCode(client.id, req.redirectUri, req.nonce, claims, req.codeChallenge, now + CODE_TTL)
  }

  /** The request is authenticated and names a live code issued for it. */
  predicate PaysFor(clients: Clients, s256: string -> string, codes: Codes, req: TokenRequest, now: Time) {
    ClientCheck(clients, req).None? && req.code in codes && !Past(codes[req.code].expiresAt, now)
    && CodeCheck(s256, codes[req.code], req).None?
  }

  // ---------------------------------------------------------------- the checks, spelled out

  /** An authorization request passes if and only if its client is registered, its redirect address
      is one of that client's, it asks for a code, and PKCE is S256 when it is used; a public
      client must use it. */
  lemma AuthorizeExactly(clients: Clients, req: AuthorizeRequest)
    ensures var r, m := ValidateAuthorize(clients, req), req.codeChallengeMethod;
      && (r.Ok? <==>
            && req.clientId in clients && req.redirectUri != "" && req.redirectUri in clients[req.clientId].redirectUris
            && req.responseType == "code"
            && (clients[req.clientId].secret == "" ==> req.codeChallenge != "")
            && (req.codeChallenge != "" ==> m == "S256" || m == "s256" || m == "\U{017F}256"))
      && (r.Ok? ==> r.value == clients[req.clientId])
      && (r == Err(UnknownClient) <==> req.clientId !in clients)
  {
  }

  /** A code is bound to everything it was issued for, for sixty seconds. */
  lemma CodeBinds(client: Client, req: AuthorizeRequest, claims: Claims, now: Time)
    ensures var c := IssuedCode(client, req, claims, now);
      && c.clientId == client.id && c.redirectUri == req.redirectUri && c.nonce == req.nonce && c.claims == claims
      && c.codeChallenge == req.codeChallenge && c.expiresAt == now + 60
  {
  }

  /** A token request is paid if and only if it is of the right grant, its client is registered and
      proves its secret if it has one, and the code is held, unexpired, issued to that client and
      redirect address, and its PKCE challenge, if any, is that of the verifier presented. */
  lemma PaysExactly(clients: Clients, s256: string -> string, codes: Codes, req: TokenRequest, now: Time)
    ensures PaysFor(clients, s256, codes, req, now) <==>
      && req.grantType == "authorization_code" && req.clientId in clients
      && (clients[req.clientId].secret == "" || clients[req.clientId].secret == req.clientSecret)
      && req.code in codes && now < codes[req.code].expiresAt
      && codes[req.code].clientId == req.clientId && codes[req.code].redirectUri == req.redirectUri
      && (codes[req.code].codeChallenge == "" ||
          (req.codeVerifier != "" && codes[req.code].codeChallenge == s256(req.codeVerifier)))
  {
  }

  /** Reaping keeps exactly what has not expired. */
  lemma ReapsExactly(m: Challenges, codes: Codes, now: Time, id: string)
    ensures id in LiveChallenges(m, now) <==> id in m && now < m[id].expiresAt
    ensures id in LiveChallenges(m, now) ==> LiveChallenges(m, now)[id] == m[id]
    ensures id in LiveCodes(codes, now) <==> id in codes && now < codes[id].expiresAt
    ensures id in LiveCodes(codes, now) ==> LiveCodes(codes, now)[id] == codes[id]
  {
  }

  /** A challenge can be spent once: afterwards it is there, used, and nothing else has changed. */
  lemma SpentExactly(m: Challenges, id: string)
    ensures Available(m, id) <==> id in m && !m[id].used
    ensures !Available(Spent(m, id), id)
    ensures Available(m, id) ==> id in Spent(m, id) && Spent(m, id)[id] == m[id].(used := true)
    ensures Spent(m, id).Keys == m.Keys && forall k <- m :: k != id ==> Spent(m, id)[k] == m[k]
  {
  }
}
