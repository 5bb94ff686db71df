/**
 The steps of the login machine, taken one after the other, do what the provider's
 operations do; and a whole login, from its challenge to its tokens.
 */
module LoginRules {
  import opened Prelude
  import opened Login
  import opened LoginSafety

  /** Finishing an operation, if it got as far as holding its challenge. */
  function Finished(clients: Clients, s256: string -> string, s: State, f: nat, a: Attempt, code: string, now: Time,
                    signs: bool): (t: State)
    requires code !in s.issuedAt
  {
    if f in s.flights then Apply(clients, s256, s, Finish(f, a, code, now, signs)) else s
  }

  /** Authorizing in two steps with nothing in between: a code is stored and logged if and only if
      the request is valid and the challenge was there, unused and convincingly answered; a valid
      request spends the challenge either way. */
  lemma AuthorizedExactly(clients: Clients, s256: string -> string, s: State, f: nat, id: string,
                          req: AuthorizeRequest, a: Attempt, code: string, now: Time, signs: bool)
    requires f !in s.flights && code !in s.issuedAt
    ensures var op := BeginAuthorize(f, id, req); Enabled(s, op)
    ensures var m := Apply(clients, s256, s, BeginAuthorize(f, id, req));
      var t := Finished(clients, s256, m, f, a, code, now, signs);
      var client, here := ValidateAuthorize(clients, req), s.challenges;
      var issues := client.Ok? && id in here && !here[id].used && Convincing(here[id], a);
      && t.flights == s.flights && t.challenges == (if client.Ok? then Spent(here, id) else here)
      && (!issues ==> t.codes == s.codes && t.log == s.log)
      && (issues ==>
        && t.codes == s.codes[code := IssuedCode(client.value, req, a.verdict.claims.value, now)]
        && t.log == s.log + [CodeIssued(id, code, client.value, req, a.verdict.claims.value, now,
                                        here[id].(used := true), a)])
  {
    hide ValidateAuthorize, Complete, Apply, IssuedCode, Spent, Convincing;
    var client := ValidateAuthorize(clients, req);
    Begun(clients, s256, s, f, id, req);
    if client.Ok? && Available(s.challenges, id) {
      var m := Apply(clients, s256, s, BeginAuthorize(f, id, req));
      assert m.flights[f] == Flight(id, s.challenges[id].(used := true), ForCode(client.value, req));
      FinishCompletes(clients, s256, m, f, a, code, now, signs);
      CodeCompleted(m, f, a, code, now, signs, client.value, req);
      StillConvincing(s.challenges[id], a);
      assert m.flights - {f} == s.flights;
    }
  }

  lemma Begun(clients: Clients, s256: string -> string, s: State, f: nat, id: string, req: AuthorizeRequest)
    requires f !in s.flights
    ensures var client, m := ValidateAuthorize(clients, req), Apply(clients, s256, s, BeginAuthorize(f, id, req));
      if client.Ok? && Available(s.challenges, id)
      then m == Taken(s, f, id, ForCode(client.value, req))
      else m == s && (client.Ok? ==> Spent(s.challenges, id) == s.challenges)
  {
    hide ValidateAuthorize;
  }

  /** With the challenge in the hands of the operation. */
  function Taken(s: State, f: nat, id: string, purpose: Purpose): (m: State)
    requires id in s.challenges
  {
    s.(challenges := Spent(s.challenges, id), place := s.place[id := Held(f)],
       flights := s.flights[f := Flight(id, s.challenges[id].(used := true), purpose)])
  }

  lemma FinishCompletes(clients: Clients, s256: string -> string, s: State, f: nat, a: Attempt, code: string,
                        now: Time, signs: bool)
    requires f in s.flights && code !in s.issuedAt
    ensures Finished(clients, s256, s, f, a, code, now, signs) == Complete(s, f, a, code, now, signs)
  {
    hide Complete;
  }

  lemma CodeCompleted(s: State, f: nat, a: Attempt, code: string, now: Time, signs: bool, client: Client,
                      req: AuthorizeRequest)
    requires f in s.flights && s.flights[f].purpose == ForCode(client, req)
    ensures var fl, t := s.flights[f], Complete(s, f, a, code, now, signs);
      && t.flights == s.flights - {f} && t.challenges == s.challenges
      && (!Convincing(fl.challenge, a) ==> t.codes == s.codes && t.log == s.log)
      && (Convincing(fl.challenge, a) ==>
        && t.codes == s.codes[code := IssuedCode(client, req, a.verdict.claims.value, now)]
        && t.log == s.log + [CodeIssued(fl.id, code, client, req, a.verdict.claims.value, now, fl.challenge, a)])
  {
    IdentityExactly(s.flights[f].challenge, a);
    hide Identity, Convincing, IssuedCode;
  }

  lemma TokensCompleted(s: State, f: nat, a: Attempt, code: string, now: Time, signs: bool, client: string)
    requires f in s.flights && s.flights[f].purpose == ForTokens(client)
    ensures var fl, t := s.flights[f], Complete(s, f, a, code, now, signs);
      && t.flights == s.flights - {f} && t.challenges == s.challenges && t.codes == s.codes
      && (!(Convincing(fl.challenge, a) && signs) ==> t.log == s.log)
      && (Convincing(fl.challenge, a) && signs ==>
        t.log == s.log + [TokensForChallenge(fl.id, client, fl.challenge.clientNonce, a.verdict.claims.value,
                                             fl.challenge, a)])
  {
    IdentityExactly(s.flights[f].challenge, a);
    hide Identity, Convincing;
  }

  lemma StillConvincing(c: Challenge, a: Attempt)
    ensures Convincing(c.(used := true), a) <==> Convincing(c, a)
  {
  }

  /** Likewise for tokens straight from a challenge, which the signing of the tokens may still spoil. */
  lemma VerifiedExactly(clients: Clients, s256: string -> string, s: State, f: nat, id: string, client: string,
                        a: Attempt, code: string, now: Time, signs: bool)
    requires f !in s.flights && code !in s.issuedAt
    ensures Enabled(s, BeginVerify(f, id, client))
    ensures var m := Apply(clients, s256, s, BeginVerify(f, id, client));
      var t := Finished(clients, s256, m, f, a, code, now, signs);
      var here := s.challenges;
      var issues := id in here && !here[id].used && Convincing(here[id], a) && signs;
      && t.flights == s.flights && t.challenges == Spent(here, id) && t.codes == s.codes
      && (!issues ==> t.log == s.log)
      && (issues ==>
        t.log == s.log + [TokensForChallenge(id, client, here[id].clientNonce, a.verdict.claims.value,
                                             here[id].(used := true), a)])
  {
    hide Complete, Apply, Spent, Convincing;
    TakenForTokens(clients, s256, s, f, id, client);
    if Available(s.challenges, id) {
      var m := Apply(clients, s256, s, BeginVerify(f, id, client));
      assert m.flights[f] == Flight(id, s.challenges[id].(used := true), ForTokens(client));
      FinishCompletes(clients, s256, m, f, a, code, now, signs);
      TokensCompleted(m, f, a, code, now, signs, client);
      StillConvincing(s.challenges[id], a);
      assert m.flights - {f} == s.flights;
    }
  }

  lemma TakenForTokens(clients: Clients, s256: string -> string, s: State, f: nat, id: string, client: string)
    requires f !in s.flights
    ensures var m := Apply(clients, s256, s, BeginVerify(f, id, client));
      if Available(s.challenges, id)
      then m == Taken(s, f, id, ForTokens(client)) else m == s && Spent(s.challenges, id) == s.challenges
  {
  }

  /** An exchange by an authenticated client spends the code it names, and is logged exactly when
      it is paid for. */
  lemma ExchangedExactly(clients: Clients, s256: string -> string, s: State, req: TokenRequest, now: Time, signs: bool)
    ensures var t := Apply(clients, s256, s, Exchange(req, now, signs));
      && t.challenges == s.challenges && t.flights == s.flights
      && t.codes == (if ClientCheck(clients, req) == None then s.codes - {req.code} else s.codes)
      && (!(PaysFor(clients, s256, s.codes, req, now) && signs) ==> t.log == s.log)
      && (PaysFor(clients, s256, s.codes, req, now) && signs ==>
        && req.code in s.codes
        && t.log == s.log + [TokensForCode(req.code, req, s.codes[req.code].nonce, s.codes[req.code].claims, now)])
  {
    assert PaysFor(clients, s256, s.codes, req, now) ==> ClientCheck(clients, req) == None && req.code in s.codes;
    hide PaysFor, ClientCheck;
    if req.code !in s.codes { assert s.codes - {req.code} == s.codes; }
  }

  // ---------------------------------------------------------------- a whole login

  const APP := Client("app", "", ["https://app"])

  const APPS: Clients := map["app" := APP]

  const REQUEST := AuthorizeRequest("app", "https://app", "code", "n", "S:verifier", "S256")

  const ANSWER := Attempt(20, [1], Signed(Some(Claims("900101", "rest"))), true, NotRevoked)

  const TOKENS := TokenRequest("authorization_code", "code", "https://app", "app", "", "verifier")

  function Preimage(v: string): (r: string) { "S:" + v }

  const LOGIN: seq<Op> := [
    IssueChallenge("c", ASKED), BeginAuthorize(0, "c", REQUEST), Finish(0, ANSWER, "code", 21, true),
    Exchange(TOKENS, 80, true), Exchange(TOKENS, 80, true)]

  const ASKED := Challenge([7], "", 100, false)

  const USED := Challenge([7], "", 100, true)

  const PERSON := Claims("900101", "rest")

  const CODE := AuthCode("app", "https://app", "n", PERSON, "S:verifier", 81)

  const ISSUED := CodeIssued("c", "code", APP, REQUEST, PERSON, 21, USED, ANSWER)

  const PAID := TokensForCode("code", TOKENS, "n", PERSON, 80)

  const S1 := State(map["c" := ASKED], map[], map[], [], map["c" := ASKED], map[], map[], map[])

  const S2 := State(map["c" := USED], map[], map[0 := Flight("c", USED, ForCode(APP, REQUEST))], [], map["c" := ASKED],
                    map["c" := Held(0)], map[], map[])

  const S3 := State(map["c" := USED], map["code" := CODE], map[], [ISSUED], map["c" := ASKED], map["c" := At(0)],
                    map["code" := 0], map[])

  const S4 := State(map["c" := USED], map[], map[], [ISSUED, PAID], map["c" := ASKED], map["c" := At(0)],
                    map["code" := 0], map["code" := 1])

  lemma First()
    ensures Enabled(Start, LOGIN[0]) && Apply(APPS, Preimage, Start, LOGIN[0]) == S1
  {
  }

  lemma Second()
    ensures Enabled(S1, LOGIN[1]) && Apply(APPS, Preimage, S1, LOGIN[1]) == S2
  {
    AuthorizeExactly(APPS, REQUEST);
    hide ValidateAuthorize;
    assert Spent(S1.challenges, "c") == map["c" := USED];
  }

  lemma Third()
    ensures Enabled(S2, LOGIN[2]) && Apply(APPS, Preimage, S2, LOGIN[2]) == S3
  {
    assert Identity(USED, ANSWER) == Ok(PERSON);
    hide Identity;
    assert S2.flights - {0} == map[];
    assert IssuedCode(APP, REQUEST, PERSON, 21) == CODE;
  }

  lemma Fourth()
    ensures Enabled(S3, LOGIN[3]) && Apply(APPS, Preimage, S3, LOGIN[3]) == S4
  {
    assert Preimage("verifier") == "S:verifier";
    PaysExactly(APPS, Preimage, S3.codes, TOKENS, 80);
    assert ClientCheck(APPS, TOKENS) == None;
    hide PaysFor, ClientCheck;
    assert S3.codes - {"code"} == map[];
  }

  lemma Fifth()
    ensures Enabled(S4, LOGIN[4]) && Apply(APPS, Preimage, S4, LOGIN[4]) == S4
  {
  }

  /** A public client's user answers a challenge at 20, gets a code at 21 and tokens for it at 80,
      the last moment; exchanging the code once more gets nothing. */
  lemma LoginExample()
    ensures Run(APPS, Preimage, LOGIN) == S4
  {
    First();
    Second();
    Third();
    Fourth();
    Fifth();
    NotYet();
    hide Apply, Enabled;
    Next([], LOGIN[0]);
    Next([LOGIN[0]], LOGIN[1]);
    Next([LOGIN[0], LOGIN[1]], LOGIN[2]);
    Next([LOGIN[0], LOGIN[1], LOGIN[2]], LOGIN[3]);
    Next([LOGIN[0], LOGIN[1], LOGIN[2], LOGIN[3]], LOGIN[4]);
    hide Run;
    assert [] + [LOGIN[0]] == [LOGIN[0]] && [LOGIN[0]] + [LOGIN[1]] == [LOGIN[0], LOGIN[1]];
    assert [LOGIN[0], LOGIN[1]] + [LOGIN[2]] == [LOGIN[0], LOGIN[1], LOGIN[2]];
    assert [LOGIN[0], LOGIN[1], LOGIN[2]] + [LOGIN[3]] == [LOGIN[0], LOGIN[1], LOGIN[2], LOGIN[3]];
    assert [LOGIN[0], LOGIN[1], LOGIN[2], LOGIN[3]] + [LOGIN[4]] == LOGIN;
  }

  lemma NotYet()
    ensures Run(APPS, Preimage, []) == Start
  {
  }

  lemma Next(before: seq<Op>, op: Op)
    ensures var s := Run(APPS, Preimage, before);
      Run(APPS, Preimage, before + [op]) == if Enabled(s, op) then Apply(APPS, Preimage, s, op) else s
  {
    hide Apply, Enabled;
    assert (before + [op])[..|before + [op]| - 1] == before;
  }
}
