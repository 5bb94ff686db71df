/**
 How good the first fit is: each new signer takes the first open requirement they meet.
 For which lists of requirements does that accept everybody who could be placed at all?
 */
module MultisignFit {
  import opened Prelude
  import opened Multisign
  import opened MultisignSafety

  // ---------------------------------------------------------------- the newcomers of a container

  /** The signers whose identities are not among ids, each person once. */
  function Newcomers(ids: set<string>, signers: seq<Signer>): (r: seq<Signer>)
    decreases |signers|
  {
    if |signers| == 0 then []
    else if IdentityOf(signers[0].who) in ids then Newcomers(ids, signers[1..])
    else [signers[0]] + Newcomers(ids + {IdentityOf(signers[0].who)}, signers[1..])
  }

  /** None of them is recorded yet, and no two are the same person. */
  predicate AllNew(ids: set<string>, signers: seq<Signer>) {
    DistinctSigners(signers) && forall i :: 0 <= i < |signers| ==> IdentityOf(signers[i].who) !in ids
  }

  lemma {:induction false} NewcomersNew(ids: set<string>, signers: seq<Signer>)
    ensures AllNew(ids, Newcomers(ids, signers))
    decreases |signers|
  {
    hide IdentityOf;
    if |signers| > 0 {
      var id := IdentityOf(signers[0].who);
      if id in ids {
        NewcomersNew(ids, signers[1..]);
      } else {
        NewcomersNew(ids + {id}, signers[1..]);
        var rest := Newcomers(ids + {id}, signers[1..]);
        var all := [signers[0]] + rest;
        assert forall i :: 0 < i < |all| ==> all[i] == rest[i - 1];
      }
    }
  }

  /** A submission looks only at the newcomers. */
  lemma {:induction false} SkipsRecorded(required: seq<Required>, collected: seq<Signature>, signers: seq<Signer>,
                                         now: int)
    ensures Absorbed(required, collected, signers, now) ==
      Absorbed(required, collected, Newcomers(Ids(collected), signers), now)
    decreases |signers|
  {
    hide IdentityOf, Ids, Recorded, Refusal;
    if |signers| > 0 {
      var id := IdentityOf(signers[0].who);
      if id in Ids(collected) {
        SkipsRecorded(required, collected, signers[1..], now);
      } else {
        var rec := Recorded(required, collected, signers[0], now);
        RecordedWho(required, collected, signers[0], now);
        IdsSnoc(collected, rec);
        SkipsRecorded(required, collected + [rec], signers[1..], now);
        var rest := Newcomers(Ids(collected) + {id}, signers[1..]);
        assert ([signers[0]] + rest)[1..] == rest;
      }
    }
  }

  // ---------------------------------------------------------------- placing them

  /** Different open requirements, one for each signer in turn, that the signer meets. */
  ghost predicate Placement(required: seq<Required>, collected: seq<Signature>, signers: seq<Signer>, pick: seq<nat>) {
    && |pick| == |signers|
    && (forall i :: 0 <= i < |pick| ==> pick[i] < |required| && Open(required, collected, signers[i].who, pick[i]))
    && (forall i, j :: 0 <= i < j < |pick| ==> pick[i] != pick[j])
  }

  ghost predicate Placeable(required: seq<Required>, collected: seq<Signature>, signers: seq<Signer>) {
    exists pick: seq<nat> :: Placement(required, collected, signers, pick)
  }

  lemma OpenAfter(required: seq<Required>, collected: seq<Signature>, c: Signature, p: Person, i: nat)
    requires i < |required|
    ensures Open(required, collected + [c], p, i) <==> Open(required, collected, p, i) && c.satisfies != i
  {
    hide Matches;
    var all := collected + [c];
    assert all[|collected|] == c;
    if Satisfied(collected, i) {
      var k :| 0 <= k < |collected| && collected[k].satisfies == i;
      assert all[k] == collected[k];
    }
    if Satisfied(all, i) && c.satisfies != i {
      var k :| 0 <= k < |all| && all[k].satisfies == i;
      assert collected[k] == all[k];
    }
  }

  lemma FirstIsNew(ids: set<string>, signers: seq<Signer>)
    requires AllNew(ids, signers) && |signers| > 0
    ensures IdentityOf(signers[0].who) !in ids
  {
    hide IdentityOf;
  }

  lemma RestNew(collected: seq<Signature>, signers: seq<Signer>, c: Signature)
    requires AllNew(Ids(collected), signers) && |signers| > 0 && c.who == signers[0].who
    ensures AllNew(Ids(collected + [c]), signers[1..])
  {
    hide IdentityOf, Ids;
    IdsSnoc(collected, c);
    forall i | 0 <= i < |signers| - 1 ensures IdentityOf(signers[1..][i].who) !in Ids(collected + [c]) {
      assert signers[1..][i] == signers[i + 1];
    }
  }

  /** Accepted newcomers can be placed, whatever the requirements. */
  lemma {:induction false} AcceptedPlaced(required: seq<Required>, collected: seq<Signature>, signers: seq<Signer>,
                                          now: int)
    returns (pick: seq<nat>)
    requires |required| > 0 && AllNew(Ids(collected), signers) && Absorbed(required, collected, signers, now).Ok?
    ensures Placement(required, collected, signers, pick)
    decreases |signers|
  {
    hide IdentityOf, Matches, Open, Ids, AllNew;
    if |signers| == 0 { return []; }
    FirstIsNew(Ids(collected), signers);
    var rec := Recorded(required, collected, signers[0], now);
    RestNew(collected, signers, rec);
    var rest := AcceptedPlaced(required, collected + [rec], signers[1..], now);
    pick := [rec.satisfies] + rest;
    forall i | 1 <= i < |pick|
      ensures pick[i] < |required| && Open(required, collected, signers[i].who, pick[i]) && pick[i] != pick[0]
    {
      assert rest[i - 1] == pick[i] && signers[1..][i - 1] == signers[i];
      OpenAfter(required, collected, rec, signers[i].who, pick[i]);
    }
  }

  // ---------------------------------------------------------------- the condition on the list

  /** No person meets both. */
  predicate Clash(r: Required, q: Required) {
    (r.iin != "" && q.iin != "" && r.iin != q.iin) || (r.bin != "" && q.bin != "" && r.bin != q.bin)
  }

  /** Whoever meets r meets q. */
  predicate AsStrict(r: Required, q: Required) {
    && (q.iin != "" ==> r.iin == q.iin) && (q.bin != "" ==> r.bin == q.bin)
    && (q.role.text != "" ==> r.role.text != "" && r.role.folded == q.role.folded)
  }

  /** Whoever meets r and q is the one person h names, and meets h. */
  predicate Shields(h: Required, r: Required, q: Required) {
    && h.iin != "" && h.iin == q.iin
    && (h.bin != "" ==> h.bin == r.bin || (r.bin == "" && h.bin == q.bin))
    && (h.role.text != "" ==> NamesRole(r, h.role) || NamesRole(q, h.role))
  }

  predicate NamesRole(r: Required, role: Role) { r.role.text != "" && r.role.folded == role.folded }

  /** Taking place i never costs place j: i names one person, or nobody meets both, or whoever
      meets i meets j, or somebody who meets both has an earlier place of their own. */
  predicate PairSafe(required: seq<Required>, i: nat, j: nat)
    requires i < j < |required|
  {
    || required[i].iin != "" || Clash(required[i], required[j]) || AsStrict(required[i], required[j])
    || exists k :: 0 <= k < i && Shields(required[k], required[i], required[j])
  }

  /** A condition on the requirements alone, to be checked before a session is opened. */
  predicate FirstFitSafe(required: seq<Required>) {
    forall i, j :: 0 <= i < j < |required| ==> PairSafe(required, i, j)
  }

  lemma StrictMeets(r: Required, q: Required, p: Person)
    requires AsStrict(r, q) && Matches(r, p)
    ensures Matches(q, p)
  {
  }

  lemma ShieldMeets(h: Required, r: Required, q: Required, p: Person)
    requires Shields(h, r, q) && Matches(r, p) && Matches(q, p)
    ensures Matches(h, p)
  {
  }

  lemma SameIin(p: Person, q: Person)
    requires p.iin != "" && p.iin == q.iin
    ensures IdentityOf(p) == IdentityOf(q)
  {
  }

  /** A place already taken by the one person it names: that person is recorded. */
  lemma ShieldRecorded(required: seq<Required>, collected: seq<Signature>, p: Person, k: nat)
    requires Good(required, collected) && k < |required| && required[k].iin != "" && Matches(required[k], p)
      && Satisfied(collected, k)
    ensures IdentityOf(p) in Ids(collected)
  {
    var c :| 0 <= c < |collected| && collected[c].satisfies == k;
    assert Earned(required, collected[c]);
    SameIin(p, collected[c].who);
    hide IdentityOf;
    assert collected[c] in collected;
  }

  /** The exchange: if the first place g open to a new signer was meant for another one, that
      one also meets the place p meant for the first. */
  lemma Exchange(required: seq<Required>, collected: seq<Signature>, s: Person, t: Person, g: nat, p: nat)
    requires Good(required, collected) && g < p < |required| && PairSafe(required, g, p)
    requires IdentityOf(s) !in Ids(collected) && IdentityOf(s) != IdentityOf(t)
    requires Matches(required[g], s) && Matches(required[p], s) && Matches(required[g], t)
    requires forall k: nat :: k < g ==> !Open(required, collected, s, k)
    ensures Matches(required[p], t)
  {
    hide IdentityOf, Good, Matches, Ids;
    if required[g].iin != "" {
      BothNamed(required[g], s, t);
    } else if Clash(required[g], required[p]) {
      NobodyMeetsBoth(required[g], required[p], s);
    } else if AsStrict(required[g], required[p]) {
      StrictMeets(required[g], required[p], t);
    } else {
      var k :| 0 <= k < g && Shields(required[k], required[g], required[p]);
      ShieldMeets(required[k], required[g], required[p], s);
      assert !Open(required, collected, s, k);
      ShieldRecorded(required, collected, s, k);
    }
  }

  lemma BothNamed(r: Required, s: Person, t: Person)
    requires r.iin != "" && Matches(r, s) && Matches(r, t)
    ensures IdentityOf(s) == IdentityOf(t)
  {
    SameIin(s, t);
  }

  lemma NobodyMeetsBoth(r: Required, q: Required, p: Person)
    requires Clash(r, q)
    ensures !(Matches(r, p) && Matches(q, p))
  {
  }

  // ---------------------------------------------------------------- the condition is enough

  /** Any placement can be rearranged so that the first signer takes their first open place. */
  lemma Rearrange(required: seq<Required>, collected: seq<Signature>, signers: seq<Signer>, pick: seq<nat>, g: nat)
    returns (other: seq<nat>)
    requires FirstFitSafe(required) && Good(required, collected) && AllNew(Ids(collected), signers)
    requires Placement(required, collected, signers, pick) && |signers| > 0
    requires g < |required| && Open(required, collected, signers[0].who, g)
    requires forall k: nat :: k < g ==> !Open(required, collected, signers[0].who, k)
    ensures Placement(required, collected, signers, other) && other[0] == g
  {
    hide IdentityOf, Ids, Good, Matches, PairSafe, Satisfied;
    var p := pick[0];
    other := pick[0 := g];
    if k :| 0 < k < |pick| && pick[k] == g {
      assert PairSafe(required, g, p);
      assert IdentityOf(signers[0].who) != IdentityOf(signers[k].who);
      Exchange(required, collected, signers[0].who, signers[k].who, g, p);
      other := other[k := p];
      assert Open(required, collected, signers[k].who, p);
    }
  }

  lemma RestPlaced(required: seq<Required>, collected: seq<Signature>, signers: seq<Signer>, pick: seq<nat>,
                   c: Signature)
    requires Placement(required, collected, signers, pick) && |signers| > 0 && c.satisfies == pick[0]
    ensures Placement(required, collected + [c], signers[1..], pick[1..])
  {
    hide Open;
    forall i | 0 <= i < |pick| - 1
      ensures pick[1..][i] < |required| && Open(required, collected + [c], signers[1..][i].who, pick[1..][i])
    {
      assert pick[1..][i] == pick[i + 1] && signers[1..][i] == signers[i + 1];
      OpenAfter(required, collected, c, signers[i + 1].who, pick[i + 1]);
    }
  }

  lemma {:induction false} PlacedAccepted(required: seq<Required>, collected: seq<Signature>, signers: seq<Signer>,
                                          now: int, pick: seq<nat>)
    requires |required| > 0 && FirstFitSafe(required) && Good(required, collected) && AllNew(Ids(collected), signers)
    requires Placement(required, collected, signers, pick)
    ensures Absorbed(required, collected, signers, now).Ok?
    decreases |signers|
  {
    hide IdentityOf, Matches, Ids, AllNew, Open, Good, FirstFitSafe;
    if |signers| > 0 {
      FirstIsNew(Ids(collected), signers);
      var rec := Recorded(required, collected, signers[0], now);
      assert Open(required, collected, signers[0].who, pick[0]);
      var other := Rearrange(required, collected, signers, pick, rec.satisfies);
      RestNew(collected, signers, rec);
      RestPlaced(required, collected, signers, other, rec);
      RecordGood(required, collected, signers[0], now);
      PlacedAccepted(required, collected + [rec], signers[1..], now, other[1..]);
    }
  }

  /** Where the list is safe, any container's newcomers are accepted if and only if they can be
      placed at all. */
  lemma AcceptedIffPlaceable(required: seq<Required>, collected: seq<Signature>, signers: seq<Signer>, now: int)
    requires |required| > 0 && FirstFitSafe(required) && Good(required, collected)
    ensures Absorbed(required, collected, signers, now).Ok? <==>
      Placeable(required, collected, Newcomers(Ids(collected), signers))
  {
    hide Placement, FirstFitSafe, AllNew, Absorbed, Good, Ids;
    var unknown := Newcomers(Ids(collected), signers);
    SkipsRecorded(required, collected, signers, now);
    NewcomersNew(Ids(collected), signers);
    if Absorbed(required, collected, unknown, now).Ok? {
      var pick := AcceptedPlaced(required, collected, unknown, now);
    }
    if pick: seq<nat> :| Placement(required, collected, unknown, pick) {
      PlacedAccepted(required, collected, unknown, now, pick);
    }
  }

  // ---------------------------------------------------------------- and it is necessary

  function Longest(required: seq<Required>): (n: nat)
    ensures forall i :: 0 <= i < |required| ==> |required[i].iin| <= n
  {
    if |required| == 0 then 0
    else
      var n := Longest(required[1..]);
      assert forall i :: 0 < i < |required| ==> required[i] == required[1..][i - 1];
      if n < |required[0].iin| then |required[0].iin| else n
  }

  function Digits(n: nat): (r: string)
    ensures |r| == n
  {
    seq(n, _ => '0')
  }

  function RolesOf(r: Required): (roles: seq<Role>) { if r.role.text == "" then [] else [r.role] }

  /** Somebody with a number of their own who meets r and as little else as possible. */
  function Plain(r: Required, number: string): (p: Person) { Person(number, r.bin, "", RolesOf(r)) }

  /** Somebody who meets both r and q and as little else as possible. */
  function Both(r: Required, q: Required, number: string): (p: Person) {
    Person(if q.iin != "" then q.iin else number, if r.bin != "" then r.bin else q.bin, "", RolesOf(r) + RolesOf(q))
  }

  lemma PlainMeets(r: Required, number: string)
    requires r.iin == ""
    ensures Matches(r, Plain(r, number))
  {
    if r.role.text != "" { assert Plain(r, number).roles[0] == r.role; }
  }

  lemma BothMeets(r: Required, q: Required, number: string)
    requires r.iin == "" && !Clash(r, q)
    ensures Matches(r, Both(r, q, number)) && Matches(q, Both(r, q, number))
  {
    var p := Both(r, q, number);
    if r.role.text != "" { assert p.roles[0] == r.role; }
    if q.role.text != "" { assert p.roles[|p.roles| - 1] == q.role; }
  }

  /** The one who just meets r meets q only if everybody does. */
  lemma PlainMeetsOnly(r: Required, q: Required, number: string)
    requires r.iin == "" && number != q.iin && number != "" && Matches(q, Plain(r, number))
    ensures AsStrict(r, q)
  {
  }

  /** The one who just meets both meets a place of their own only if it is a shield. */
  lemma BothMeetsOnly(h: Required, r: Required, q: Required, number: string)
    requires h.iin != "" && h.iin != number && Matches(h, Both(r, q, number))
    ensures Shields(h, r, q)
  {
    var p := Both(r, q, number);
    if h.role.text != "" {
      var k :| 0 <= k < |p.roles| && p.roles[k].folded == h.role.folded;
      assert p.roles[k] == r.role || p.roles[k] == q.role;
    }
  }

  lemma StrictTrans(r: Required, q: Required, h: Required)
    requires AsStrict(r, q) && AsStrict(q, h)
    ensures AsStrict(r, h)
  {
  }

  // The cast: people who fill the places that could still save the second signer, the one who
  // meets both i and j, and as many who just meet i as there are places equal to it, and one more.

  /** A place to be filled first: it names nobody, and comes before i or is wider than i. */
  predicate Fills(required: seq<Required>, i: nat, m: nat)
    requires i < |required| && m < |required|
  {
    && required[m].iin == ""
    && (m < i || (m > i && AsStrict(required[i], required[m]) && !AsStrict(required[m], required[i])))
  }

  /** A later place that asks the same as i. */
  predicate Twin(required: seq<Required>, i: nat, m: nat)
    requires i < |required| && m < |required|
  {
    m > i && required[m].iin == "" && AsStrict(required[i], required[m]) && AsStrict(required[m], required[i])
  }

  function Fillers(required: seq<Required>, i: nat, n: nat): (r: seq<nat>)
    requires i < |required| && n <= |required|
    ensures forall k :: k in r <==> 0 <= k < n && Fills(required, i, k)
    ensures Different(r) && Within(r, n)
  {
    if n == 0 then [] else Fillers(required, i, n - 1) + if Fills(required, i, n - 1) then [n - 1] else []
  }

  function Twins(required: seq<Required>, i: nat, n: nat): (r: seq<nat>)
    requires i < |required| && n <= |required|
    ensures forall k :: k in r <==> 0 <= k < n && Twin(required, i, k)
    ensures Different(r) && Within(r, n)
  {
    if n == 0 then [] else Twins(required, i, n - 1) + if Twin(required, i, n - 1) then [n - 1] else []
  }

  predicate Within(s: seq<nat>, n: nat) { forall x :: 0 <= x < |s| ==> s[x] < n }

  predicate Different(s: seq<nat>) { forall x, y :: 0 <= x < y < |s| ==> s[x] != s[y] }

  function Stand(required: seq<Required>, m: nat): (s: Signer)
    requires m < |required|
  {
    Signer(Plain(required[m], Digits(Longest(required) + 3 + m)), None)
  }

  function Stands(required: seq<Required>, places: seq<nat>): (r: seq<Signer>)
    requires Within(places, |required|)
    ensures |r| == |places| && forall k :: 0 <= k < |r| ==> r[k] == Stand(required, places[k])
  {
    seq(|places|, k requires 0 <= k < |places| => Stand(required, places[k]))
  }

  /** Their signatures, each for its own place. */
  function Standing(required: seq<Required>, places: seq<nat>, now: int): (r: seq<Signature>)
    requires Within(places, |required|)
    ensures |r| == |places|
    ensures forall k :: 0 <= k < |r| ==> r[k] == Signature(Stand(required, places[k]).who, now, places[k])
  {
    seq(|places|, k requires 0 <= k < |places| => Signature(Stand(required, places[k]).who, now, places[k]))
  }

  function Hub(required: seq<Required>, i: nat, j: nat): (s: Signer)
    requires i < |required| && j < |required|
  {
    Signer(Both(required[i], required[j], Digits(Longest(required) + 1)), None)
  }

  function Followers(required: seq<Required>, i: nat, count: nat): (r: seq<Signer>)
    requires i < |required|
    ensures |r| == count
    ensures forall k :: 0 <= k < count ==>
      r[k] == Signer(Plain(required[i], Digits(Longest(required) + 3 + |required| + k)), None)
  {
    seq(count, k requires 0 <= k < count =>
      Signer(Plain(required[i], Digits(Longest(required) + 3 + |required| + k)), None))
  }

  function Crowd(required: seq<Required>, i: nat, j: nat): (r: seq<Signer>)
    requires i < |required| && j < |required|
  {
    Stands(required, Fillers(required, i, |required|)) + [Hub(required, i, j)]
    + Followers(required, i, |Twins(required, i, |required|)| + 1)
  }

  function Places(required: seq<Required>, i: nat, j: nat): (r: seq<nat>)
    requires i < |required| && j < |required|
  {
    Fillers(required, i, |required|) + [j] + ([i] + Twins(required, i, |required|))
  }

  // ---------------------------------------------------------------- the crowd can be placed

  lemma DifferentAppend(a: seq<nat>, b: seq<nat>)
    requires Different(a) && Different(b) && forall x <- a :: x !in b
    ensures Different(a + b)
  {
    var s := a + b;
    forall x, y | 0 <= x < y < |s| ensures s[x] != s[y] {
      if x < |a| && y >= |a| { assert s[x] in a && s[y] in b; }
    }
  }

  lemma PlacesDiffer(required: seq<Required>, i: nat, j: nat)
    requires i < j < |required| && !PairSafe(required, i, j)
    ensures Different(Places(required, i, j))
  {
    hide AsStrict, Different;
    var f, t := Fillers(required, i, |required|), Twins(required, i, |required|);
    assert Different([j]) && Different([i]) by { OneDiffers(i); OneDiffers(j); }
    DifferentAppend([i], t);
    DifferentAppend(f, [j]);
    DifferentAppend(f + [j], [i] + t);
  }

  lemma OneDiffers(x: nat)
    ensures Different([x])
  {
  }

  lemma NothingCollected(required: seq<Required>, p: Person, m: nat)
    requires m < |required| && Matches(required[m], p)
    ensures Open(required, [], p, m)
  {
  }

  lemma CrowdPlaced(required: seq<Required>, i: nat, j: nat)
    requires i < j < |required| && !PairSafe(required, i, j)
    ensures Placement(required, [], Crowd(required, i, j), Places(required, i, j))
  {
    hide Matches, AsStrict, Open, Plain, Both, Longest, Digits, Different;
    var f, t := Fillers(required, i, |required|), Twins(required, i, |required|);
    var crowd, pick := Crowd(required, i, j), Places(required, i, j);
    forall k | 0 <= k < |pick| ensures pick[k] < |required| && Open(required, [], crowd[k].who, pick[k]) {
      if k < |f| {
        assert pick[k] == f[k] && f[k] in f && crowd[k] == Stand(required, f[k]);
        PlainMeets(required[f[k]], Digits(Longest(required) + 3 + f[k]));
      } else if k == |f| {
        BothMeets(required[i], required[j], Digits(Longest(required) + 1));
      } else {
        if k > |f| + 1 { assert pick[k] == t[k - |f| - 2] && t[k - |f| - 2] in t; }
        FollowerMeets(required, i, Digits(Longest(required) + 3 + |required| + (k - |f| - 1)), pick[k]);
      }
      NothingCollected(required, crowd[k].who, pick[k]);
    }
    PlacesDiffer(required, i, j);
    assert forall x, y :: 0 <= x < y < |pick| ==> pick[x] != pick[y] by { Unfolded(pick); }
  }

  lemma Unfolded(s: seq<nat>)
    requires Different(s)
    ensures forall x, y :: 0 <= x < y < |s| ==> s[x] != s[y]
  {
  }

  lemma FollowerMeets(required: seq<Required>, i: nat, number: string, m: nat)
    requires i < |required| && required[i].iin == "" && m < |required| && (m == i || Twin(required, i, m))
    ensures Matches(required[m], Plain(required[i], number))
  {
    hide Matches, AsStrict, Plain;
    if m == i {
      PlainMeets(required[i], number);
    } else {
      PlainMeetsWider(required[i], required[m], number);
    }
  }

  lemma PlainMeetsWider(r: Required, q: Required, number: string)
    requires r.iin == "" && AsStrict(r, q)
    ensures Matches(q, Plain(r, number))
  {
    hide Matches, AsStrict, Plain;
    PlainMeets(r, number);
    StrictMeets(r, q, Plain(r, number));
  }

  // ---------------------------------------------------------------- and is not

  lemma {:induction false} AbsorbedAppend(required: seq<Required>, collected: seq<Signature>,
                                          a: seq<Signer>, b: seq<Signer>, now: int)
    ensures var first := Absorbed(required, collected, a, now);
      Absorbed(required, collected, a + b, now) == if first.Err? then first else Absorbed(required, first.value, b, now)
    decreases |a|
  {
    hide IdentityOf, Ids, Recorded, Refusal;
    if |a| == 0 {
      assert a + b == b;
    } else {
      assert (a + b)[1..] == a[1..] + b;
      if IdentityOf(a[0].who) in Ids(collected) {
        AbsorbedAppend(required, collected, a[1..], b, now);
      } else {
        AbsorbedAppend(required, collected + [Recorded(required, collected, a[0], now)], a[1..], b, now);
      }
    }
  }

  lemma OtherNumber(p: Person, q: Person)
    requires p.iin != "" && p.iin != q.iin
    ensures IdentityOf(p) != IdentityOf(q)
  {
    IdentityTellsApart(p, q);
  }

  lemma NotAmong(p: Person, collected: seq<Signature>)
    requires p.iin != "" && forall k :: 0 <= k < |collected| ==> collected[k].who.iin != p.iin
    ensures IdentityOf(p) !in Ids(collected)
  {
    forall c | c in collected ensures IdentityOf(c.who) != IdentityOf(p) { OtherNumber(p, c.who); }
  }

  lemma StandingSatisfies(required: seq<Required>, places: seq<nat>, now: int, m: nat)
    requires Within(places, |required|)
    ensures Satisfied(Standing(required, places, now), m) <==> m in places
  {
    hide Stand;
    var c := Standing(required, places, now);
    if m in places {
      var k :| 0 <= k < |places| && places[k] == m;
      assert c[k].satisfies == m;
    }
  }

  /** A filler finds no earlier place open than its own. */
  lemma FillerWaits(required: seq<Required>, i: nat, j: nat, m: nat, k: nat)
    requires i < j < |required| && !PairSafe(required, i, j) && k < m < |required| && Fills(required, i, m)
    requires Matches(required[k], Stand(required, m).who)
    ensures Fills(required, i, k)
  {
    hide Matches, AsStrict, Plain, Clash, Shields;
    FreshNumber(required, k, 3 + m);
    PlainMeetsOnly(required[m], required[k], Digits(Longest(required) + 3 + m));
    NamesNobody(required[m], required[k]);
    if m > i {
      StrictTrans(required[i], required[m], required[k]);
      if k > i && AsStrict(required[k], required[i]) { StrictTrans(required[m], required[k], required[i]); }
    }
  }

  lemma FreshNumber(required: seq<Required>, k: nat, extra: nat)
    requires k < |required| && extra > 0
    ensures Digits(Longest(required) + extra) != required[k].iin && Digits(Longest(required) + extra) != ""
  {
    assert |Digits(Longest(required) + extra)| > |required[k].iin|;
  }

  lemma NamesNobody(r: Required, q: Required)
    requires AsStrict(r, q) && r.iin == ""
    ensures q.iin == ""
  {
  }

  lemma {:induction false} FillersAbsorbed(required: seq<Required>, i: nat, j: nat, n: nat, now: int)
    requires i < j < |required| && !PairSafe(required, i, j) && n <= |required|
    ensures var f := Fillers(required, i, n);
      Absorbed(required, [], Stands(required, f), now) == Ok(Standing(required, f, now))
  {
    hide Matches, AsStrict, Plain, Clash, Shields, IdentityOf, Ids, Absorbed, Stand, PairSafe, Different;
    if n == 0 {
      AbsorbNobody(required, [], now);
      assert Stands(required, []) == [] && Standing(required, [], now) == [];
    } else {
      FillersAbsorbed(required, i, j, n - 1, now);
      var before, m := Fillers(required, i, n - 1), n - 1;
      if Fills(required, i, m) {
        assert Stands(required, before + [m]) == Stands(required, before) + [Stand(required, m)];
        AbsorbedAppend(required, [], Stands(required, before), [Stand(required, m)], now);
        NextFiller(required, i, j, m, now);
        assert Standing(required, before + [m], now)
            == Standing(required, before, now) + [Signature(Stand(required, m).who, now, m)];
      } else {
        assert Fillers(required, i, n) == before;
      }
    }
  }

  lemma AbsorbNobody(required: seq<Required>, collected: seq<Signature>, now: int)
    ensures Absorbed(required, collected, [], now) == Ok(collected)
  {
  }

  lemma AbsorbOne(required: seq<Required>, collected: seq<Signature>, s: Signer, now: int)
    requires IdentityOf(s.who) !in Ids(collected) && Recorded(required, collected, s, now).satisfies >= 0
    ensures Absorbed(required, collected, [s], now) == Ok(collected + [Recorded(required, collected, s, now)])
  {
    hide IdentityOf, Ids, Recorded;
    assert [s][1..] == [];
    AbsorbNobody(required, collected + [Recorded(required, collected, s, now)], now);
  }

  lemma NextFiller(required: seq<Required>, i: nat, j: nat, m: nat, now: int)
    requires i < j < |required| && !PairSafe(required, i, j) && m < |required| && Fills(required, i, m)
    ensures var c := Standing(required, Fillers(required, i, m), now);
      Absorbed(required, c, [Stand(required, m)], now) == Ok(c + [Signature(Stand(required, m).who, now, m)])
  {
    hide Matches, AsStrict, Clash, Shields, IdentityOf, Ids, Absorbed, PairSafe, Different, Satisfied;
    var f := Fillers(required, i, m);
    var c := Standing(required, f, now);
    var s := Stand(required, m);
    forall k: nat | k < m ensures !Open(required, c, s.who, k) {
      if Matches(required[k], s.who) {
        FillerWaits(required, i, j, m, k);
        StandingSatisfies(required, f, now, k);
      }
    }
    StandingSatisfies(required, f, now, m);
    PlainMeets(required[m], Digits(Longest(required) + 3 + m));
    assert Open(required, c, s.who, m);
    StandNew(required, f, m, now);
    AbsorbOne(required, c, s, now);
  }

  lemma StandNew(required: seq<Required>, f: seq<nat>, m: nat, now: int)
    requires m < |required| && Within(f, m)
    ensures IdentityOf(Stand(required, m).who) !in Ids(Standing(required, f, now))
  {
    hide IdentityOf, Ids, Longest;
    var c := Standing(required, f, now);
    forall k | 0 <= k < |c| ensures c[k].who.iin != Stand(required, m).who.iin {
      assert |c[k].who.iin| == Longest(required) + 3 + f[k];
    }
    NotAmong(Stand(required, m).who, c);
  }

  /** More newcomers than places open to them: somebody is refused. */
  lemma {:induction false} Overload(required: seq<Required>, collected: seq<Signature>, signers: seq<Signer>,
                                    free: set<nat>, i: nat, now: int)
    requires |required| > 0 && AllNew(Ids(collected), signers) && |free| < |signers| && i < |required|
    requires forall k :: 0 <= k < |signers| ==> Matches(required[i], signers[k].who)
    requires forall k, m: nat ::
      0 <= k < |signers| && m < |required| && Open(required, collected, signers[k].who, m) ==> m in free
    ensures Absorbed(required, collected, signers, now) == Err(AlreadySigned)
    decreases |signers|
  {
    hide IdentityOf, Ids, AllNew, Matches, Satisfied, Open;
    FirstIsNew(Ids(collected), signers);
    var rec := Recorded(required, collected, signers[0], now);
    if rec.satisfies >= 0 {
      RestNew(collected, signers, rec);
      var rest, left := signers[1..], free - {rec.satisfies};
      forall k, m: nat | 0 <= k < |rest| && m < |required| && Open(required, collected + [rec], rest[k].who, m)
        ensures m in left
      {
        assert rest[k] == signers[k + 1];
        OpenAfter(required, collected, rec, rest[k].who, m);
      }
      assert forall k :: 0 <= k < |rest| ==> rest[k] == signers[k + 1];
      Overload(required, collected + [rec], rest, left, i, now);
    } else {
      assert Refusal(required, signers[0].who) == AlreadySigned by { assert Matches(required[i], signers[0].who); }
    }
  }

  /** The one who meets both comes to i first. */
  lemma HubTakes(required: seq<Required>, i: nat, j: nat, now: int)
    requires i < j < |required| && !PairSafe(required, i, j)
    ensures var c, a := Standing(required, Fillers(required, i, |required|), now), Hub(required, i, j);
      && Recorded(required, c, a, now).satisfies == i && IdentityOf(a.who) !in Ids(c)
      && Recorded(required, c, a, now).who == a.who
  {
    hide Matches, AsStrict, Clash, Shields, IdentityOf, Ids, Satisfied, Both, Plain, Different;
    var f := Fillers(required, i, |required|);
    var c, a := Standing(required, f, now), Hub(required, i, j);
    BothMeets(required[i], required[j], Digits(Longest(required) + 1));
    StandingSatisfies(required, f, now, i);
    assert Open(required, c, a.who, i);
    forall k: nat | k < i ensures !Open(required, c, a.who, k) {
      StandingSatisfies(required, f, now, k);
      if required[k].iin != "" && Matches(required[k], a.who) {
        FreshNumber(required, k, 1);
        BothMeetsOnly(required[k], required[i], required[j], Digits(Longest(required) + 1));
      }
    }
    HubNew(required, i, j, f, now);
  }

  lemma HubNew(required: seq<Required>, i: nat, j: nat, f: seq<nat>, now: int)
    requires i < |required| && j < |required| && Within(f, |required|)
    ensures IdentityOf(Hub(required, i, j).who) !in Ids(Standing(required, f, now))
  {
    hide IdentityOf, Ids;
    var c, a := Standing(required, f, now), Hub(required, i, j);
    assert 0 < |a.who.iin| <= Longest(required) + 1;
    forall k | 0 <= k < |c| ensures c[k].who.iin != a.who.iin {
      assert |c[k].who.iin| == Longest(required) + 3 + f[k];
    }
    NotAmong(a.who, c);
  }

  /** What is left to a follower: places that ask the same as i. */
  lemma FollowerFinds(required: seq<Required>, i: nat, j: nat, k: nat, m: nat, c: seq<Signature>, rec: Signature,
                      now: int)
    requires i < j < |required| && !PairSafe(required, i, j) && m < |required|
    requires c == Standing(required, Fillers(required, i, |required|), now) && rec.satisfies == i
    requires Open(required, c + [rec], Plain(required[i], Digits(Longest(required) + 3 + |required| + k)), m)
    ensures Twin(required, i, m)
  {
    hide Matches, AsStrict, Clash, Shields, Satisfied, Plain, Different, Digits, Longest, Fillers, Standing;
    var number := Digits(Longest(required) + 3 + |required| + k);
    OpenAfter(required, c, rec, Plain(required[i], number), m);
    FreshNumber(required, m, 3 + |required| + k);
    PlainMeetsOnly(required[i], required[m], number);
    NamesNobody(required[i], required[m]);
    StandingSatisfies(required, Fillers(required, i, |required|), now, m);
  }

  lemma FollowersNew(required: seq<Required>, i: nat, j: nat, count: nat, f: seq<nat>, rec: Signature, now: int)
    requires i < |required| && j < |required| && rec.who == Hub(required, i, j).who && Within(f, |required|)
    ensures AllNew(Ids(Standing(required, f, now) + [rec]), Followers(required, i, count))
  {
    hide IdentityOf, Ids;
    var c, bs := Standing(required, f, now) + [rec], Followers(required, i, count);
    forall x, y | 0 <= x < y < count ensures IdentityOf(bs[x].who) != IdentityOf(bs[y].who) {
      assert |bs[x].who.iin| != |bs[y].who.iin|;
      OtherNumber(bs[x].who, bs[y].who);
    }
    forall x | 0 <= x < count ensures IdentityOf(bs[x].who) !in Ids(c) {
      forall k | 0 <= k < |c| ensures c[k].who.iin != bs[x].who.iin {
        if k < |f| {
          assert c[k] == Standing(required, f, now)[k];
          assert |c[k].who.iin| == Longest(required) + 3 + f[k];
        } else {
          assert |c[k].who.iin| <= Longest(required) + 1;
        }
      }
      NotAmong(bs[x].who, c);
    }
  }

  function SetOf(s: seq<nat>): (r: set<nat>) { set x | x in s }

  lemma {:induction false} AsMany(s: seq<nat>)
    ensures |SetOf(s)| <= |s|
  {
    if |s| > 0 {
      var n := |s| - 1;
      AsMany(s[..n]);
      assert SetOf(s) == SetOf(s[..n]) + {s[n]};
    } else {
      assert SetOf(s) == {};
    }
  }

  /** On an unsafe list the very first container of a session can name people who could all be
      placed, and be refused. */
  lemma FirstFitMisses(required: seq<Required>, i: nat, j: nat, now: int)
    requires i < j < |required| && !PairSafe(required, i, j)
    ensures Placement(required, [], Crowd(required, i, j), Places(required, i, j))
    ensures Absorbed(required, [], Crowd(required, i, j), now) == Err(AlreadySigned)
  {
    hide Matches, AsStrict, IdentityOf, Ids, Absorbed, PairSafe, Different, Plain, Both, Stand, Open, AllNew,
         Placement, Twin, Fills;
    CrowdPlaced(required, i, j);
    var f, t := Fillers(required, i, |required|), Twins(required, i, |required|);
    var a, bs := Hub(required, i, j), Followers(required, i, |t| + 1);
    FillersAbsorbed(required, i, j, |required|, now);
    var c := Standing(required, f, now);
    HubTakes(required, i, j, now);
    var rec := Recorded(required, c, a, now);
    AbsorbOne(required, c, a, now);
    AbsorbedAppend(required, [], Stands(required, f), [a], now);
    AbsorbedAppend(required, [], Stands(required, f) + [a], bs, now);
    FollowersNew(required, i, j, |t| + 1, f, rec, now);
    var free := SetOf(t);
    AsMany(t);
    forall k | 0 <= k < |bs| ensures Matches(required[i], bs[k].who) {
      IsUnnamed(required, i, j);
      FollowerMeets(required, i, Digits(Longest(required) + 3 + |required| + k), i);
    }
    forall k, m: nat | 0 <= k < |bs| && m < |required| && Open(required, c + [rec], bs[k].who, m) ensures m in free {
      FollowerFinds(required, i, j, k, m, c, rec, now);
    }
    Overload(required, c + [rec], bs, free, i, now);
  }

  lemma IsUnnamed(required: seq<Required>, i: nat, j: nat)
    requires i < j < |required| && !PairSafe(required, i, j)
    ensures required[i].iin == ""
  {
    hide Clash, AsStrict, Shields;
  }

  /** They are all different people. */
  lemma CrowdNew(required: seq<Required>, i: nat, j: nat)
    requires i < |required| && j < |required|
    ensures AllNew({}, Crowd(required, i, j))
  {
    hide IdentityOf;
    var crowd := Crowd(required, i, j);
    var f := Fillers(required, i, |required|);
    forall x, y | 0 <= x < y < |crowd| ensures IdentityOf(crowd[x].who) != IdentityOf(crowd[y].who) {
      CrowdNumber(required, i, j, x);
      CrowdNumber(required, i, j, y);
      if y < |f| { assert f[x] != f[y]; }
      OtherNumber(crowd[y].who, crowd[x].who);
    }
  }

  lemma CrowdNumber(required: seq<Required>, i: nat, j: nat, x: nat)
    requires i < |required| && j < |required| && x < |Crowd(required, i, j)|
    ensures var f, n, iin := Fillers(required, i, |required|), Longest(required), Crowd(required, i, j)[x].who.iin;
      && (x < |f| ==> |iin| == n + 3 + f[x] && f[x] < |required|)
      && (x == |f| ==> 0 < |iin| <= n + 1)
      && (x > |f| ==> |iin| == n + 3 + |required| + x - |f| - 1)
  {
    var f := Fillers(required, i, |required|);
  }

  lemma {:induction false} NewcomersAll(ids: set<string>, signers: seq<Signer>)
    requires AllNew(ids, signers)
    ensures Newcomers(ids, signers) == signers
    decreases |signers|
  {
    hide IdentityOf;
    if |signers| > 0 {
      var rest := signers[1..];
      assert forall k :: 0 <= k < |rest| ==> rest[k] == signers[k + 1];
      assert signers == [signers[0]] + rest;
      NewcomersAll(ids + {IdentityOf(signers[0].who)}, rest);
    }
  }

  /** First fit accepts everybody who can be placed: in every session, and in a new one. */
  ghost predicate FirstFitEnough(required: seq<Required>) {
    forall collected: seq<Signature>, signers: seq<Signer>, now: int ::
      Good(required, collected) && Placeable(required, collected, Newcomers(Ids(collected), signers)) ==>
        Absorbed(required, collected, signers, now).Ok?
  }

  ghost predicate FirstFitEnoughAtFirst(required: seq<Required>) {
    forall signers: seq<Signer>, now: int ::
      Placeable(required, [], Newcomers({}, signers)) ==> Absorbed(required, [], signers, now).Ok?
  }

  /** Choosing the first open requirement is as good as any choice if and only if the list is
      safe; and a list that is not safe fails already with the first container of a session. */
  lemma FirstFitExactly(required: seq<Required>)
    requires |required| > 0
    ensures FirstFitEnough(required) <==> FirstFitSafe(required)
    ensures FirstFitEnoughAtFirst(required) <==> FirstFitSafe(required)
  {
    hide Placement, Absorbed, Good, Ids, PairSafe, AllNew, Crowd, Places;
    NoIds([]);
    if FirstFitSafe(required) {
      forall collected: seq<Signature>, signers: seq<Signer>, now: int
        | Good(required, collected) && Placeable(required, collected, Newcomers(Ids(collected), signers))
        ensures Absorbed(required, collected, signers, now).Ok?
      {
        AcceptedIffPlaceable(required, collected, signers, now);
      }
    } else {
      var i, j :| 0 <= i < j < |required| && !PairSafe(required, i, j);
      FirstFitMisses(required, i, j, 0);
      CrowdNew(required, i, j);
      NewcomersAll({}, Crowd(required, i, j));
      assert Placeable(required, [], Newcomers({}, Crowd(required, i, j)));
      assert Absorbed(required, [], Crowd(required, i, j), 0).Err?;
    }
    NothingYet(required);
  }

  /** So, with a safe list, a submission is accepted exactly when the session is waiting, the
      container verifies, nobody recorded is missing from it, and it names newcomers who can be
      placed. */
  lemma SubmitExactly(read: Reader, s: Session, container: Bytes, check: Check, now: int)
    requires |s.required| > 0 && FirstFitSafe(s.required) && Good(s.required, s.collected)
    ensures var signers := read(s.document, container);
      var unknown := Newcomers(Ids(s.collected), signers);
      Submitted(read, s, container, check, now).Ok? <==>
        && s.status == Pending && check.Passed? && Ids(s.collected) <= SignerIds(signers)
        && unknown != [] && Placeable(s.required, s.collected, unknown)
  {
    hide FirstFitSafe, Good, Ids, SignerIds, Met, Placeable;
    var signers := read(s.document, container);
    AcceptedIffPlaceable(s.required, s.collected, signers, now);
    SkipsRecorded(s.required, s.collected, signers, now);
    var unknown := Newcomers(Ids(s.collected), signers);
    if Absorbed(s.required, s.collected, signers, now).Ok? {
      NewcomersNew(Ids(s.collected), signers);
      Added(s.required, s.collected, unknown, now);
    }
  }

  lemma {:induction false} Added(required: seq<Required>, collected: seq<Signature>, signers: seq<Signer>, now: int)
    requires AllNew(Ids(collected), signers) && Absorbed(required, collected, signers, now).Ok?
    ensures |Absorbed(required, collected, signers, now).value| == |collected| + |signers|
    decreases |signers|
  {
    hide AllNew, Ids, IdentityOf, Recorded;
    if |signers| > 0 {
      FirstIsNew(Ids(collected), signers);
      var rec := Recorded(required, collected, signers[0], now);
      RecordedWho(required, collected, signers[0], now);
      RestNew(collected, signers, rec);
      Added(required, collected + [rec], signers[1..], now);
    }
  }
}
