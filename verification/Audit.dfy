/**
 The hash-chained audit journal: how an entry is turned into text and hashed, how
 the chain is appended to, resumed and verified, and what an intact chain proves.
 The hash is any function from text to text.
 */
module Audit {
  import opened Prelude

  const GENESIS := "genesis"

  /** The instant is carried as its formatted text. */
  datatype Entry = Entry(seqNo: nat, at: string, op: string, actor: string, subject: string, signer: string,
                         outcome: string, detail: string, prevHash: string, hash: string, signature: string)

  // ---------------------------------------------------------------- the textual form

  function Digit(d: nat): (c: char)
    requires d < 10
    ensures c != '\n'
  {
    '0' + d as char
  }

  function Decimal(n: nat): (r: string)
    ensures |r| > 0
  {
    if n < 10 then [Digit(n)] else Decimal(n / 10) + [Digit(n % 10)]
  }

  lemma {:induction false} DecimalInjective(m: nat, n: nat)
    requires Decimal(m) == Decimal(n)
    ensures m == n
  {
    var a, b := Decimal(m), Decimal(n);
    assert a[|a| - 1] == Digit(m % 10) && b[|b| - 1] == Digit(n % 10);
    if m >= 10 && n >= 10 {
      assert a[..|a| - 1] == Decimal(m / 10) && b[..|b| - 1] == Decimal(n / 10);
      DecimalInjective(m / 10, n / 10);
    }
  }

  predicate OneLine(s: string) { '\n' !in s }

  lemma {:induction false} DecimalOneLine(n: nat)
    ensures OneLine(Decimal(n))
  {
    if n >= 10 { DecimalOneLine(n / 10); }
  }

  function Lines(fields: seq<string>): (r: string) {
    if |fields| == 0 then "" else fields[0] + "\n" + Lines(fields[1..])
  }

  /** What the hash covers, in order. */
  function Fields(e: Entry): (r: seq<string>) {
    [Decimal(e.seqNo), e.at, e.op, e.actor, e.subject, e.signer, e.outcome, e.detail, e.prevHash]
  }

  function Text(e: Entry): (r: string) { Lines(Fields(e)) }

  /** The caller's text has no line breaks (numbers, times and hashes never do). */
  predicate Plain(e: Entry) {
    && OneLine(e.at) && OneLine(e.op) && OneLine(e.actor) && OneLine(e.subject) && OneLine(e.signer)
    && OneLine(e.outcome) && OneLine(e.detail) && OneLine(e.prevHash)
  }

  lemma FirstLine(x: string, y: string, r: string, q: string)
    requires OneLine(x) && OneLine(y) && x + "\n" + r == y + "\n" + q
    ensures x == y && r == q
  {
    var a := x + "\n" + r;
    assert a[|x|] == '\n' && a[|y|] == '\n';
    assert x == a[..|x|] && y == a[..|y|];
    assert forall k :: 0 <= k < |x| ==> a[k] == x[k];
    assert forall k :: 0 <= k < |y| ==> a[k] == y[k];
    assert r == a[|x| + 1..] && q == a[|y| + 1..];
  }

  lemma {:induction false} LinesInjective(a: seq<string>, b: seq<string>)
    requires |a| == |b| && Lines(a) == Lines(b)
    requires forall i :: 0 <= i < |a| ==> OneLine(a[i]) && OneLine(b[i])
    ensures a == b
  {
    hide OneLine;
    if |a| > 0 {
      FirstLine(a[0], b[0], Lines(a[1..]), Lines(b[1..]));
      LinesInjective(a[1..], b[1..]);
      assert a == [a[0]] + a[1..] && b == [b[0]] + b[1..];
    }
  }

  /** Everything the chain vouches for; the detached signature is not part of it. */
  predicate SameFacts(a: Entry, b: Entry) { a.(signature := "", hash := "") == b.(signature := "", hash := "") }

  // ---------------------------------------------------------------- when the text tells entries apart

  function Breaks(s: string): (n: nat) {
    if |s| == 0 then 0 else (if s[0] == '\n' then 1 else 0) + Breaks(s[1..])
  }

  lemma {:induction false} BreaksNone(s: string)
    ensures Breaks(s) == 0 <==> OneLine(s)
  {
    if |s| > 0 {
      BreaksNone(s[1..]);
      assert s == [s[0]] + s[1..];
    }
  }

  lemma {:induction false} BreaksAppend(a: string, b: string)
    ensures Breaks(a + b) == Breaks(a) + Breaks(b)
  {
    if |a| == 0 {
      assert a + b == b;
    } else {
      assert (a + b)[1..] == a[1..] + b;
      BreaksAppend(a[1..], b);
    }
  }

  /** A text of n lines has at least n line breaks, and just n when no line holds one. */
  lemma {:induction false} LinesBreaks(fields: seq<string>)
    ensures Breaks(Lines(fields)) >= |fields|
    ensures Breaks(Lines(fields)) == |fields| <==> forall i :: 0 <= i < |fields| ==> OneLine(fields[i])
  {
    hide OneLine, Breaks;
    if |fields| > 0 {
      LinesBreaks(fields[1..]);
      BreaksNone(fields[0]);
      BreaksAppend(fields[0] + "\n", Lines(fields[1..]));
      BreaksAppend(fields[0], "\n");
      OneBreak();
      assert forall i :: 0 < i < |fields| ==> fields[i] == fields[1..][i - 1];
    } else {
      NoBreak();
    }
  }

  lemma OneBreak()
    ensures Breaks("\n") == 1
  {
    assert "\n"[1..] == "";
  }

  lemma NoBreak()
    ensures Breaks("") == 0
  {
  }

  lemma PlainFields(e: Entry)
    ensures Plain(e) <==> forall i :: 0 <= i < 9 ==> OneLine(Fields(e)[i])
  {
    DecimalOneLine(e.seqNo);
    hide OneLine, Decimal;
    var f := Fields(e);
    assert f[0] == Decimal(e.seqNo) && f[1] == e.at && f[2] == e.op && f[3] == e.actor && f[4] == e.subject;
    assert f[5] == e.signer && f[6] == e.outcome && f[7] == e.detail && f[8] == e.prevHash;
  }

  /** The text of an entry without line breaks is the text of that entry only. */
  lemma TextInjective(a: Entry, b: Entry)
    requires Plain(a) && Text(a) == Text(b)
    ensures Plain(b) && SameFacts(a, b)
  {
    hide OneLine, Lines, Decimal, Plain, Breaks;
    var f, g := Fields(a), Fields(b);
    PlainFields(a);
    LinesBreaks(f);
    LinesBreaks(g);
    PlainFields(b);
    LinesInjective(f, g);
    assert f[0] == g[0] && f[1] == g[1] && f[2] == g[2] && f[3] == g[3] && f[4] == g[4];
    assert f[5] == g[5] && f[6] == g[6] && f[7] == g[7] && f[8] == g[8];
    DecimalInjective(a.seqNo, b.seqNo);
  }

  lemma {:induction false} LinesAppend(a: seq<string>, b: seq<string>)
    ensures Lines(a + b) == Lines(a) + Lines(b)
  {
    if |a| == 0 {
      assert a + b == b;
    } else {
      assert (a + b)[1..] == a[1..] + b;
      LinesAppend(a[1..], b);
    }
  }

  lemma TwoLines(x: string, y: string)
    ensures Lines([x, y]) == x + "\n" + y + "\n"
  {
    assert [x, y][1..] == [y] && [y][1..] == [];
    assert Lines([y]) == y + "\n" + Lines([]);
  }

  /** A line break can be handed from the end of one field to the front of the next. */
  lemma MovedBreak(front: seq<string>, u: string, v: string, w: string, back: seq<string>)
    ensures Lines(front + [u + "\n" + v, w] + back) == Lines(front + [u, v + "\n" + w] + back)
  {
    hide Lines;
    LinesAppend(front + [u + "\n" + v, w], back);
    LinesAppend(front + [u, v + "\n" + w], back);
    LinesAppend(front, [u + "\n" + v, w]);
    LinesAppend(front, [u, v + "\n" + w]);
    TwoLines(u + "\n" + v, w);
    TwoLines(u, v + "\n" + w);
    assert (u + "\n" + v) + "\n" + w + "\n" == u + "\n" + (v + "\n" + w) + "\n";
  }

  /** Fields that hold a line break somewhere after the first are not the only ones with their text. */
  lemma BrokenFields(f: seq<string>, i: nat) returns (g: seq<string>)
    requires |f| == 9 && 1 <= i < 9 && !OneLine(f[i])
    ensures |g| == 9 && g[0] == f[0] && Lines(g) == Lines(f) && g != f && (i < 8 ==> g[8] == f[8])
  {
    var k :| 0 <= k < |f[i]| && f[i][k] == '\n';
    var u, v := f[i][..k], f[i][k + 1..];
    assert f[i] == u + "\n" + v;
    hide OneLine, Lines;
    if i < 7 {
      g := f[..i] + [u, v + "\n" + f[i + 1]] + f[i + 2..];
      assert f == f[..i] + [u + "\n" + v, f[i + 1]] + f[i + 2..];
      MovedBreak(f[..i], u, v, f[i + 1], f[i + 2..]);
    } else {
      g := f[..i - 1] + [f[i - 1] + "\n" + u, v] + f[i + 1..];
      assert f == f[..i - 1] + [f[i - 1], u + "\n" + v] + f[i + 1..];
      MovedBreak(f[..i - 1], f[i - 1], u, v, f[i + 1..]);
    }
    assert |g[i]| < |f[i]|;
  }

  function WithFields(e: Entry, f: seq<string>): (r: Entry)
    requires |f| == 9
  {
    Entry(e.seqNo, f[1], f[2], f[3], f[4], f[5], f[6], f[7], f[8], e.hash, e.signature)
  }

  /** Another entry with the same text. */
  ghost predicate Misread(e: Entry, other: Entry) { Text(other) == Text(e) && !SameFacts(e, other) }

  /** The hash can be made to vouch for something else exactly when some hashed field holds a
      line break. */
  lemma MisreadExactly(e: Entry)
    ensures (exists other: Entry :: Misread(e, other)) <==> !Plain(e)
  {
    hide OneLine, Lines, Decimal, Plain;
    if other: Entry :| Misread(e, other) && Plain(e) { TextInjective(e, other); }
    if !Plain(e) {
      PlainFields(e);
      DecimalOneLine(e.seqNo);
      var f := Fields(e);
      var i: nat :| i < 9 && !OneLine(f[i]);
      var g := BrokenFields(f, i);
      MisreadAs(e, g);
    }
  }

  lemma MisreadAs(e: Entry, g: seq<string>)
    requires |g| == 9 && g[0] == Decimal(e.seqNo) && Lines(g) == Text(e) && g != Fields(e)
    ensures Misread(e, WithFields(e, g)) && WithFields(e, g).prevHash == g[8]
  {
    hide Lines, Decimal;
    var other := WithFields(e, g);
    assert Fields(other) == g;
    assert SameFacts(e, other) ==> Fields(e) == Fields(other);
  }

  // ---------------------------------------------------------------- the chain

  function Head(es: seq<Entry>): (r: string) { if |es| == 0 then GENESIS else es[|es| - 1].hash }

  /** The checks made of one entry when n entries ending in prev precede it. */
  predicate Link(h: string -> string, signed: Entry -> bool, n: nat, prev: string, e: Entry) {
    e.seqNo == n + 1 && e.prevHash == prev && e.hash == h(Text(e)) && signed(e)
  }

  predicate Linked(h: string -> string, signed: Entry -> bool, es: seq<Entry>, i: nat)
    requires i < |es|
  {
    Link(h, signed, i, Head(es[..i]), es[i])
  }

  /** Numbered from one, each entry hashing itself and naming the hash before it. */
  predicate Chain(h: string -> string, signed: Entry -> bool, es: seq<Entry>) {
    forall i :: 0 <= i < |es| ==> Linked(h, signed, es, i)
  }

  lemma ChainNone(h: string -> string, signed: Entry -> bool)
    ensures Chain(h, signed, [])
  {
  }

  lemma ChainTake(h: string -> string, signed: Entry -> bool, es: seq<Entry>, n: nat)
    requires Chain(h, signed, es) && n <= |es|
    ensures Chain(h, signed, es[..n])
  {
    forall i | 0 <= i < n ensures Linked(h, signed, es[..n], i) {
      assert Linked(h, signed, es, i) && es[..n][..i] == es[..i];
    }
  }

  lemma ChainSnoc(h: string -> string, signed: Entry -> bool, es: seq<Entry>, e: Entry)
    requires Chain(h, signed, es)
    ensures Chain(h, signed, es + [e]) <==> Link(h, signed, |es|, Head(es), e)
  {
    var all := es + [e];
    assert all[..|es|] == es && all[|es|] == e;
    if Chain(h, signed, all) { assert Linked(h, signed, all, |es|); }
    forall i | 0 <= i < |es| ensures Linked(h, signed, all, i) {
      assert Linked(h, signed, es, i) && all[..i] == es[..i];
    }
  }

  /** A broken hash: among these very entries, two different texts with one hash, or a
      text that hashes to the genesis marker. */
  ghost predicate HashBroken(h: string -> string, a: seq<Entry>, b: seq<Entry>) {
    || (exists i, j :: 0 <= i < |a| && 0 <= j < |b| && Text(a[i]) != Text(b[j]) && h(Text(a[i])) == h(Text(b[j])))
    || (exists i :: 0 <= i < |a| && h(Text(a[i])) == GENESIS)
    || (exists j :: 0 <= j < |b| && h(Text(b[j])) == GENESIS)
  }

  lemma BrokenGrows(h: string -> string, a: seq<Entry>, b: seq<Entry>, x: Entry, y: Entry)
    requires HashBroken(h, a, b)
    ensures HashBroken(h, a + [x], b + [y])
  {
    var c, d := a + [x], b + [y];
    if i, j :| 0 <= i < |a| && 0 <= j < |b| && Text(a[i]) != Text(b[j]) && h(Text(a[i])) == h(Text(b[j])) {
      assert c[i] == a[i] && d[j] == b[j];
    } else if i :| 0 <= i < |a| && h(Text(a[i])) == GENESIS {
      assert c[i] == a[i];
    } else {
      var j :| 0 <= j < |b| && h(Text(b[j])) == GENESIS;
      assert d[j] == b[j];
    }
  }

  predicate SameJournal(a: seq<Entry>, b: seq<Entry>) {
    |a| == |b| && forall i :: 0 <= i < |a| ==> SameFacts(a[i], b[i]) && a[i].hash == b[i].hash
  }

  predicate AllPlain(es: seq<Entry>) { forall i :: 0 <= i < |es| ==> Plain(es[i]) }

  /** Tamper evidence: two intact journals that end in the same head hash record the same
      facts from first to last, unless the hash itself was broken on their entries. Only one of
      them need be free of line breaks. */
  lemma {:induction false} TamperEvidence(h: string -> string, signedA: Entry -> bool, signedB: Entry -> bool,
                                          a: seq<Entry>, b: seq<Entry>)
    requires Chain(h, signedA, a) && Chain(h, signedB, b) && AllPlain(a) && Head(a) == Head(b)
    ensures SameJournal(a, b) || HashBroken(h, a, b)
  {
    hide Text, Plain, SameFacts, Chain, HashBroken, SameJournal;
    if |a| > 0 && |b| > 0 {
      var m, n := |a| - 1, |b| - 1;
      LastLink(h, signedA, a);
      LastLink(h, signedB, b);
      if Text(a[m]) == Text(b[n]) {
        TextInjective(a[m], b[n]);
        FactsAgree(a[m], b[n]);
        ChainTake(h, signedA, a, m);
        ChainTake(h, signedB, b, n);
        TamperEvidence(h, signedA, signedB, a[..m], b[..n]);
        OneMore(h, a, b);
      } else {
        Collision(h, a, b, m, n);
      }
    } else if |a| > 0 {
      LastLink(h, signedA, a);
      MadeGenesis(h, a, b, |a| - 1);
    } else if |b| > 0 {
      LastLink(h, signedB, b);
      MadeGenesis(h, b, a, |b| - 1);
    } else {
      assert SameJournal(a, b) by { NothingRecorded(a, b); }
    }
  }

  /** The seal covers number and hash, so the verifier looks at nothing else of an entry. */
  ghost predicate SealOnly(signed: Entry -> bool) {
    forall e: Entry, f: Entry :: e.seqNo == f.seqNo && e.hash == f.hash && e.signature == f.signature ==>
      signed(e) == signed(f)
  }

  /** Hashes are written out on one line. */
  ghost predicate HashOneLine(h: string -> string) { forall x: string :: OneLine(h(x)) }

  /** Every intact journal with this head records what this one records. */
  ghost predicate TamperEvident(h: string -> string, signed: Entry -> bool, a: seq<Entry>) {
    forall b: seq<Entry> :: Chain(h, signed, b) && Head(b) == Head(a) ==> SameJournal(a, b) || HashBroken(h, a, b)
  }

  /** An intact journal is tamper evident if and only if no hashed field of it holds a line break. */
  lemma TamperExactly(h: string -> string, signed: Entry -> bool, a: seq<Entry>)
    requires Chain(h, signed, a) && SealOnly(signed) && HashOneLine(h) && !HashBroken(h, a, a)
    ensures TamperEvident(h, signed, a) <==> AllPlain(a)
  {
    hide Chain, HashBroken, SameJournal, Plain, SealOnly, HashOneLine;
    if AllPlain(a) {
      forall b: seq<Entry> | Chain(h, signed, b) && Head(b) == Head(a)
        ensures SameJournal(a, b) || HashBroken(h, a, b)
      {
        TamperEvidence(h, signed, signed, a, b);
      }
    } else {
      var i :| 0 <= i < |a| && !Plain(a[i]);
      PrevOneLine(h, signed, a, i);
      var other := MisreadInPlace(a[i]);
      Replaced(h, signed, a, i, other);
      assert Head(a[i := other]) == Head(a);
    }
  }

  lemma PrevOneLine(h: string -> string, signed: Entry -> bool, a: seq<Entry>, i: nat)
    requires Chain(h, signed, a) && HashOneLine(h) && i < |a|
    ensures OneLine(a[i].prevHash)
  {
    hide Text, OneLine;
    assert Linked(h, signed, a, i);
    if i > 0 {
      assert Linked(h, signed, a, i - 1);
      assert OneLine(h(Text(a[i - 1])));
    } else {
      GenesisOneLine();
    }
  }

  lemma GenesisOneLine()
    ensures OneLine(GENESIS)
  {
  }

  lemma MisreadInPlace(e: Entry) returns (other: Entry)
    requires !Plain(e) && OneLine(e.prevHash)
    ensures Misread(e, other) && other.prevHash == e.prevHash
    ensures other.seqNo == e.seqNo && other.hash == e.hash && other.signature == e.signature
  {
    hide OneLine, Lines, Decimal, Plain, Misread;
    PlainFields(e);
    DecimalOneLine(e.seqNo);
    var f := Fields(e);
    var i: nat :| i < 9 && !OneLine(f[i]);
    var g := BrokenFields(f, i);
    other := WithFields(e, g);
    MisreadAs(e, g);
  }

  lemma Replaced(h: string -> string, signed: Entry -> bool, a: seq<Entry>, i: nat, other: Entry)
    requires Chain(h, signed, a) && SealOnly(signed) && i < |a| && Misread(a[i], other) && !HashBroken(h, a, a)
    requires other.prevHash == a[i].prevHash && other.seqNo == a[i].seqNo
    requires other.hash == a[i].hash && other.signature == a[i].signature
    ensures var b := a[i := other]; Chain(h, signed, b) && !SameJournal(a, b) && !HashBroken(h, a, b)
  {
    hide Text, SameFacts;
    var b := a[i := other];
    assert forall k :: 0 <= k < |a| ==> b[k].hash == a[k].hash && Text(b[k]) == Text(a[k]);
    forall k | 0 <= k < |b| ensures Linked(h, signed, b, k) {
      assert Linked(h, signed, a, k);
      assert Head(b[..k]) == Head(a[..k]);
    }
    if HashBroken(h, a, b) { SameTexts(h, a, b); }
  }

  lemma SameTexts(h: string -> string, a: seq<Entry>, b: seq<Entry>)
    requires |a| == |b| && (forall k :: 0 <= k < |a| ==> Text(b[k]) == Text(a[k])) && HashBroken(h, a, b)
    ensures HashBroken(h, a, a)
  {
    hide Text;
    if i, j :| 0 <= i < |a| && 0 <= j < |b| && Text(a[i]) != Text(b[j]) && h(Text(a[i])) == h(Text(b[j])) {
      Collision(h, a, a, i, j);
    } else if i :| 0 <= i < |a| && h(Text(a[i])) == GENESIS {
      MadeGenesis(h, a, a, i);
    }
  }

  lemma LastLink(h: string -> string, signed: Entry -> bool, es: seq<Entry>)
    requires Chain(h, signed, es) && |es| > 0
    ensures var e := es[|es| - 1]; e.hash == h(Text(e)) && e.prevHash == Head(es[..|es| - 1])
  {
    assert Linked(h, signed, es, |es| - 1);
  }

  lemma Collision(h: string -> string, a: seq<Entry>, b: seq<Entry>, i: nat, j: nat)
    requires i < |a| && j < |b| && Text(a[i]) != Text(b[j]) && h(Text(a[i])) == h(Text(b[j]))
    ensures HashBroken(h, a, b)
  {
    hide Text;
  }

  lemma MadeGenesis(h: string -> string, a: seq<Entry>, b: seq<Entry>, i: nat)
    requires i < |a| && h(Text(a[i])) == GENESIS
    ensures HashBroken(h, a, b) && HashBroken(h, b, a)
  {
    hide Text;
  }

  lemma NothingRecorded(a: seq<Entry>, b: seq<Entry>)
    requires |a| == |b| == 0
    ensures SameJournal(a, b)
  {
  }

  lemma OneMore(h: string -> string, a: seq<Entry>, b: seq<Entry>)
    requires |a| > 0 && |b| > 0 && SameFacts(a[|a| - 1], b[|b| - 1]) && a[|a| - 1].hash == b[|b| - 1].hash
    requires var x, y := a[..|a| - 1], b[..|b| - 1]; SameJournal(x, y) || HashBroken(h, x, y)
    ensures SameJournal(a, b) || HashBroken(h, a, b)
  {
    hide Text, SameFacts;
    var x, y := a[..|a| - 1], b[..|b| - 1];
    assert a == x + [a[|a| - 1]] && b == y + [b[|b| - 1]];
    if HashBroken(h, x, y) { BrokenGrows(h, x, y, a[|a| - 1], b[|b| - 1]); }
  }

  lemma FactsAgree(x: Entry, y: Entry)
    requires SameFacts(x, y)
    ensures x.seqNo == y.seqNo && x.prevHash == y.prevHash
  {
  }

  // ---------------------------------------------------------------- verification

  /** A line of the journal file. */
  datatype Line = Blank | Garbage | Record(entry: Entry)

  datatype VerifyResult = VerifyResult(entries: nat, brokenAt: nat, head: string, intact: bool)

  function NonBlank(lines: seq<Line>): (r: seq<Line>) {
    if |lines| == 0 then [] else (if lines[0] == Blank then [] else [lines[0]]) + NonBlank(lines[1..])
  }

  lemma {:induction false} NonBlankSnoc(lines: seq<Line>, l: Line)
    ensures NonBlank(lines + [l]) == NonBlank(lines) + (if l == Blank then [] else [l])
  {
    if |lines| > 0 {
      assert (lines + [l])[1..] == lines[1..] + [l];
      NonBlankSnoc(lines[1..], l);
    } else {
      assert lines + [l] == [l] && [l][1..] == [];
    }
  }

  /** The entries of leading records. */
  function Entries(ls: seq<Line>): (r: seq<Entry>)
    requires forall i :: 0 <= i < |ls| ==> ls[i].Record?
    ensures |r| == |ls| && forall i :: 0 <= i < |ls| ==> r[i] == ls[i].entry
  {
    seq(|ls|, i requires 0 <= i < |ls| => ls[i].entry)
  }

  /** The first n lines that are not blank are records forming an intact chain. */
  predicate Accepted(h: string -> string, signed: Entry -> bool, ls: seq<Line>, n: nat) {
    && n <= |ls| && (forall i :: 0 <= i < n ==> ls[i].Record?)
    && Chain(h, signed, Entries(ls[..n]))
  }

  /** The result verification must report: the longest intact prefix, and the first break. */
  ghost predicate Reports(h: string -> string, signed: Entry -> bool, lines: seq<Line>, readError: bool,
                          res: VerifyResult) {
    var ls := NonBlank(lines);
    && Accepted(h, signed, ls, res.entries)
    && (forall n: nat :: Accepted(h, signed, ls, n) ==> n <= res.entries)
    && (res.intact <==> res.entries == |ls| && !readError)
    && (res.intact ==> res.brokenAt == 0 && res.head == Head(Entries(ls[..res.entries])))
    && (!res.intact ==> res.brokenAt == res.entries + 1)
  }

  lemma AcceptedPrefix(h: string -> string, signed: Entry -> bool, ls: seq<Line>, n: nat, m: nat)
    requires Accepted(h, signed, ls, n) && m <= n
    ensures Accepted(h, signed, ls, m)
  {
    ChainTake(h, signed, Entries(ls[..n]), m);
    assert Entries(ls[..n])[..m] == Entries(ls[..m]);
  }

  /** One more line is accepted exactly when it is the next link. */
  lemma AcceptedNext(h: string -> string, signed: Entry -> bool, ls: seq<Line>, n: nat)
    requires Accepted(h, signed, ls, n) && n < |ls|
    ensures Accepted(h, signed, ls, n + 1) <==> ls[n].Record? && Link(h, signed, n, Head(Entries(ls[..n])), ls[n].entry)
  {
    if ls[n].Record? {
      assert Entries(ls[..n + 1]) == Entries(ls[..n]) + [ls[n].entry];
      ChainSnoc(h, signed, Entries(ls[..n]), ls[n].entry);
    }
  }

  lemma StopsAt(h: string -> string, signed: Entry -> bool, ls: seq<Line>, n: nat)
    requires Accepted(h, signed, ls, n) && (n < |ls| ==> !Accepted(h, signed, ls, n + 1))
    ensures forall m: nat :: Accepted(h, signed, ls, m) ==> m <= n
  {
    forall m: nat | Accepted(h, signed, ls, m) ensures m <= n {
      if m > n { AcceptedPrefix(h, signed, ls, m, n + 1); }
    }
  }

  /** The walk over the journal. */
  method Verify(h: string -> string, signed: Entry -> bool, lines: seq<Line>, readError: bool)
    returns (res: VerifyResult)
    ensures Reports(h, signed, lines, readError, res)
  {
    hide Text, Accepted;
    ghost var ls := NonBlank(lines);
    var prev, expected, count := GENESIS, 1, 0;
    AcceptedNone(h, signed, ls);
    for k := 0 to |lines|
      invariant expected == count + 1 && count <= |ls| && NonBlank(lines[..k]) == ls[..count]
      invariant forall i :: 0 <= i < count ==> ls[i].Record?
      invariant Accepted(h, signed, ls, count) && prev == Head(Entries(ls[..count]))
    {
      NonBlankSplit(lines, k, count);
      if lines[k] == Blank { continue; }
      AcceptedNext(h, signed, ls, count);
      if lines[k] == Garbage || lines[k].entry.seqNo != expected || lines[k].entry.prevHash != prev
        || lines[k].entry.hash != h(Text(lines[k].entry)) || !signed(lines[k].entry)
      {
        StopsAt(h, signed, ls, count);
        return VerifyResult(count, expected, "", false);
      }
      AcceptedHead(h, signed, ls, count);
      prev := lines[k].entry.hash;
      count, expected := count + 1, expected + 1;
    }
    assert lines[..|lines|] == lines;
    StopsAt(h, signed, ls, count);
    if readError { return VerifyResult(count, expected, "", false); }
    return VerifyResult(count, 0, prev, true);
  }

  lemma AcceptedNone(h: string -> string, signed: Entry -> bool, ls: seq<Line>)
    ensures Accepted(h, signed, ls, 0) && Head(Entries(ls[..0])) == GENESIS
  {
  }

  lemma AcceptedHead(h: string -> string, signed: Entry -> bool, ls: seq<Line>, n: nat)
    requires n < |ls| && Accepted(h, signed, ls, n) && ls[n].Record?
    ensures forall i :: 0 <= i < n + 1 ==> ls[i].Record?
    ensures Head(Entries(ls[..n + 1])) == ls[n].entry.hash
  {
  }

  lemma NonBlankSplit(lines: seq<Line>, k: nat, n: nat)
    requires k < |lines| && n <= |NonBlank(lines)| && NonBlank(lines[..k]) == NonBlank(lines)[..n]
    ensures lines[k] == Blank ==> NonBlank(lines[..k + 1]) == NonBlank(lines)[..n]
    ensures lines[k] != Blank ==>
      n < |NonBlank(lines)| && NonBlank(lines)[n] == lines[k] && NonBlank(lines[..k + 1]) == NonBlank(lines)[..n + 1]
  {
    hide NonBlank;
    assert lines[..k + 1] == lines[..k] + [lines[k]];
    NonBlankSnoc(lines[..k], lines[k]);
    NonBlankAppend(lines[..k + 1], lines[k + 1..]);
    assert lines == lines[..k + 1] + lines[k + 1..];
    if lines[k] != Blank {
      OneFurther(NonBlank(lines), NonBlank(lines[..k]), lines[k], NonBlank(lines[k + 1..]));
    }
  }

  lemma OneFurther(all: seq<Line>, front: seq<Line>, l: Line, back: seq<Line>)
    requires all == front + [l] + back
    ensures |front| < |all| && all[|front|] == l && all[..|front| + 1] == front + [l]
  {
  }

  lemma {:induction false} NonBlankAppend(a: seq<Line>, b: seq<Line>)
    ensures NonBlank(a + b) == NonBlank(a) + NonBlank(b)
  {
    if |a| > 0 {
      assert (a + b)[1..] == a[1..] + b;
      NonBlankAppend(a[1..], b);
    } else {
      assert a + b == b;
    }
  }

  /** The report is determined: only one result fits a journal (its head is not reported on a break). */
  lemma ReportUnique(h: string -> string, signed: Entry -> bool, lines: seq<Line>, readError: bool, a: VerifyResult,
                     b: VerifyResult)
    requires Reports(h, signed, lines, readError, a) && Reports(h, signed, lines, readError, b)
    ensures a.(head := "") == b.(head := "") && (a.intact ==> a == b)
  {
    hide Accepted;
  }

  // ---------------------------------------------------------------- appending and resuming

  /** Where the chain stands: the number and hash of the last entry. */
  datatype Position = Position(seqNo: nat, hash: string)

  datatype Event = Event(op: string, actor: string, subject: string, signer: string, outcome: string, detail: string)

  /** What became of the line of an append: on disk, nothing written, or written before an
      error of the final sync. */
  datatype Fate = Durable | NotWritten | NotSynced

  datatype Op = Append(event: Event, at: string, fate: Fate) | Reopen

  /** The file and the chain position held in memory. */
  datatype Journal = Journal(file: seq<Entry>, position: Position)

  function Sealed(h: string -> string, sign: (nat, string) -> string, p: Position, ev: Event, at: string): (e: Entry)
    ensures e.seqNo == p.seqNo + 1 && e.prevHash == p.hash && e.hash == h(Text(e))
      && e.signature == sign(e.seqNo, e.hash)
  {
    var draft := Entry(p.seqNo + 1, at, ev.op, ev.actor, ev.subject, ev.signer, ev.outcome, ev.detail, p.hash, "", "");
    var hash := h(Text(draft));
    assert Fields(draft) == Fields(draft.(hash := hash, signature := sign(draft.seqNo, hash)));
    draft.(hash := hash, signature := sign(draft.seqNo, hash))
  }

  function EndOf(es: seq<Entry>): (p: Position) {
    if |es| == 0 then Position(0, GENESIS) else Position(es[|es| - 1].seqNo, es[|es| - 1].hash)
  }

  function Step(h: string -> string, sign: (nat, string) -> string, j: Journal, op: Op): (r: Journal) {
    match op
    case Reopen => j.(position := EndOf(j.file))
    case Append(ev, at, fate) =>
      var e := Sealed(h, sign, j.position, ev, at);
      match fate
      case Durable => Journal(j.file + [e], Position(e.seqNo, e.hash))
      case NotWritten => j
      case NotSynced => j.(file := j.file + [e])
  }

  function Run(h: string -> string, sign: (nat, string) -> string, ops: seq<Op>): (j: Journal) {
    if |ops| == 0 then Journal([], Position(0, GENESIS))
    else Step(h, sign, Run(h, sign, ops[..|ops| - 1]), ops[|ops| - 1])
  }

  /** Some sync failed since the journal was last opened. */
  predicate Stale(ops: seq<Op>) {
    |ops| > 0 && var last := ops[|ops| - 1];
    !last.Reopen? && (last.fate == NotSynced || Stale(ops[..|ops| - 1]))
  }

  /** No line was written after a failed sync until the journal was reopened. */
  predicate Disciplined(ops: seq<Op>) {
    |ops| > 0 ==>
      && Disciplined(ops[..|ops| - 1])
      && (Stale(ops[..|ops| - 1]) ==> ops[|ops| - 1].Reopen? || ops[|ops| - 1].fate == NotWritten)
  }

  /** The verifier accepts what the signer signs. */
  ghost predicate Accepts(signed: Entry -> bool, sign: (nat, string) -> string) {
    forall e: Entry :: e.signature == sign(e.seqNo, e.hash) ==> signed(e)
  }

  lemma EndOfChain(h: string -> string, signed: Entry -> bool, es: seq<Entry>)
    requires Chain(h, signed, es)
    ensures EndOf(es) == Position(|es|, Head(es))
  {
    if |es| > 0 { assert Linked(h, signed, es, |es| - 1); }
  }

  /** The journal is intact; in memory stands its end, or when stale the entry before. */
  predicate Sound(h: string -> string, signed: Entry -> bool, j: Journal, stale: bool) {
    && Chain(h, signed, j.file)
    && (!stale ==> j.position == Position(|j.file|, Head(j.file)))
    && (stale ==> j.position.seqNo + 1 == |j.file|)
  }

  lemma StepSound(h: string -> string, sign: (nat, string) -> string, signed: Entry -> bool, j: Journal, op: Op,
                  stale: bool)
    requires Accepts(signed, sign) && Sound(h, signed, j, stale)
    requires stale ==> op.Reopen? || op.fate == NotWritten
    ensures Sound(h, signed, Step(h, sign, j, op), !op.Reopen? && (op.fate == NotSynced || stale))
  {
    hide Text, Chain;
    match op
    case Reopen => EndOfChain(h, signed, j.file);
    case Append(ev, at, fate) =>
      var e := Sealed(h, sign, j.position, ev, at);
      if fate != NotWritten {
        assert signed(e);
        ChainSnoc(h, signed, j.file, e);
      }
  }

  /** Whatever is written next, onto a broken chain or after a failed sync, leaves it broken. */
  lemma StepBreaks(h: string -> string, sign: (nat, string) -> string, signed: Entry -> bool, j: Journal, op: Op)
    requires !Chain(h, signed, j.file) || (Sound(h, signed, j, true) && op.Append? && op.fate != NotWritten)
    ensures !Chain(h, signed, Step(h, sign, j, op).file)
  {
    hide Text, Chain;
    if op.Append? && op.fate != NotWritten {
      var e := Sealed(h, sign, j.position, op.event, op.at);
      if Chain(h, signed, j.file + [e]) {
        ChainTake(h, signed, j.file + [e], |j.file|);
        assert (j.file + [e])[..|j.file|] == j.file;
        ChainSnoc(h, signed, j.file, e);
      }
    }
  }

  /** Over every run of appends and reopenings the journal is intact if and only if no line
      followed a failed sync, and then, unless a sync has just failed, memory holds its end. */
  lemma {:induction false} RunIntact(h: string -> string, sign: (nat, string) -> string, signed: Entry -> bool,
                                     ops: seq<Op>)
    requires Accepts(signed, sign)
    ensures Chain(h, signed, Run(h, sign, ops).file) <==> Disciplined(ops)
    ensures Disciplined(ops) ==> Sound(h, signed, Run(h, sign, ops), Stale(ops))
  {
    hide Chain, Accepts, Step;
    if |ops| == 0 {
      ChainNone(h, signed);
    } else {
      var before, op := ops[..|ops| - 1], ops[|ops| - 1];
      RunIntact(h, sign, signed, before);
      if Disciplined(ops) {
        StepSound(h, sign, signed, Run(h, sign, before), op, Stale(before));
      } else {
        StepBreaks(h, sign, signed, Run(h, sign, before), op);
      }
    }
  }

  /** The lines a journal's entries occupy in its file. */
  function LinesOf(es: seq<Entry>): (r: seq<Line>)
    ensures |r| == |es| && forall i :: 0 <= i < |es| ==> r[i] == Record(es[i])
  {
    seq(|es|, i requires 0 <= i < |es| => Record(es[i]))
  }

  lemma {:induction false} RecordsStay(ls: seq<Line>)
    requires forall i :: 0 <= i < |ls| ==> ls[i].Record?
    ensures NonBlank(ls) == ls
  {
    if |ls| > 0 {
      RecordsStay(ls[1..]);
      assert ls == [ls[0]] + ls[1..];
    }
  }

  /** So verification passes exactly the disciplined runs, and then reports as many entries
      and the same head hash as stand in memory. */
  lemma RunVerifies(h: string -> string, sign: (nat, string) -> string, signed: Entry -> bool, ops: seq<Op>,
                    res: VerifyResult)
    requires Accepts(signed, sign)
    requires Reports(h, signed, LinesOf(Run(h, sign, ops).file), false, res)
    ensures res.intact <==> Disciplined(ops)
    ensures res.intact && !Stale(ops) ==> Position(res.entries, res.head) == Run(h, sign, ops).position
  {
    hide Chain, Accepts, Step, Text;
    var es := Run(h, sign, ops).file;
    var ls := LinesOf(es);
    RecordsStay(ls);
    RunIntact(h, sign, signed, ops);
    assert Entries(ls[..|ls|]) == es;
    if Disciplined(ops) { assert Accepted(h, signed, ls, |ls|); }
  }

  /** Reading the end of a file: the last record, unless some line cannot be read. */
  method Tail(lines: seq<Line>, readError: bool) returns (r: Option<Position>)
    ensures r == None <==> readError || Garbage in lines
    ensures r.Some? ==> (forall i :: 0 <= i < |NonBlank(lines)| ==> NonBlank(lines)[i].Record?)
    ensures r.Some? ==> r.value == EndOf(Entries(NonBlank(lines)))
  {
    var last := Position(0, GENESIS);
    for k := 0 to |lines|
      invariant Garbage !in lines[..k]
      invariant forall i :: 0 <= i < |NonBlank(lines[..k])| ==> NonBlank(lines[..k])[i].Record?
      invariant last == EndOf(Entries(NonBlank(lines[..k])))
    {
      assert lines[..k + 1] == lines[..k] + [lines[k]];
      NonBlankSnoc(lines[..k], lines[k]);
      if lines[k] == Blank { continue; }
      if lines[k] == Garbage { return None; }
      last := Position(lines[k].entry.seqNo, lines[k].entry.hash);
    }
    assert lines[..|lines|] == lines;
    return if readError then None else Some(last);
  }

  lemma {:induction false} GarbageStays(ls: seq<Line>)
    requires Garbage in ls
    ensures Garbage in NonBlank(ls)
  {
    if ls[0] != Garbage { GarbageStays(ls[1..]); }
  }

  /** The open journal. */
  class Log {
    var file: seq<Line>
    var seqNo: nat
    var prevHash: string
    ghost var records: seq<Entry>

    ghost predicate Valid()
      reads this
    {
      NonBlank(file) == LinesOf(records)
    }

    ghost function Contents(): (j: Journal)
      reads this
    {
      Journal(records, Position(seqNo, prevHash))
    }

    constructor Resume(lines: seq<Line>, p: Position)
      requires forall i :: 0 <= i < |NonBlank(lines)| ==> NonBlank(lines)[i].Record?
      ensures Valid() && file == lines && Contents() == Journal(Entries(NonBlank(lines)), p)
    {
      file, seqNo, prevHash, records := lines, p.seqNo, p.hash, Entries(NonBlank(lines));
    }

    method Append(h: string -> string, sign: (nat, string) -> string, ev: Event, at: string, fate: Fate)
      returns (r: Option<Entry>)
      requires Valid()
      modifies this
      ensures Valid() && Contents() == Step(h, sign, old(Contents()), Op.Append(ev, at, fate))
      ensures r.Some? <==> fate == Durable
      ensures r.Some? ==>
        Contents().position == Position(r.value.seqNo, r.value.hash) && records == old(records) + [r.value]
    {
      var e := Entry(seqNo + 1, at, ev.op, ev.actor, ev.subject, ev.signer, ev.outcome, ev.detail, prevHash, "", "");
      e := e.(hash := h(Text(e)));
      e := e.(signature := sign(e.seqNo, e.hash));
      assert e == Sealed(h, sign, Contents().position, ev, at);
      if fate == NotWritten { return None; }
      NonBlankSnoc(file, Record(e));
      file, records := file + [Record(e)], records + [e];
      if fate == NotSynced { return None; }
      seqNo, prevHash := e.seqNo, e.hash;
      return Some(e);
    }

    method Reopen(h: string -> string, sign: (nat, string) -> string)
      requires Valid()
      modifies this
      ensures Valid() && file == old(file) && Contents() == Step(h, sign, old(Contents()), Op.Reopen)
    {
      if Garbage in file { GarbageStays(file); }
      var p := Tail(file, false);
      assert Entries(NonBlank(file)) == records;
      seqNo, prevHash := p.value.seqNo, p.value.hash;
    }
  }

  /** Opens a journal where its file ends; a missing file starts a new chain, and a file with a
      line that cannot be read is refused, so no second chain is started behind it. */
  method Open(file: Option<seq<Line>>, readError: bool) returns (r: Option<Log>)
    ensures r.None? <==> file.Some? && (readError || Garbage in file.value)
    ensures r.Some? ==> fresh(r.value) && r.value.Valid() && r.value.file == (if file.Some? then file.value else [])
    ensures r.Some? ==> r.value.Contents().position == EndOf(r.value.records)
  {
    if file.None? {
      var log := new Log.Resume([], Position(0, GENESIS));
      return Some(log);
    }
    var end := Tail(file.value, readError);
    if end.None? { return None; }
    var log := new Log.Resume(file.value, end.value);
    return Some(log);
  }

  /** Opening the file a run has left behind is the reopening of the model. */
  lemma OpenIsReopen(h: string -> string, sign: (nat, string) -> string, j: Journal, records: seq<Entry>)
    requires NonBlank(LinesOf(j.file)) == LinesOf(records)
    ensures Step(h, sign, j, Reopen) == Journal(records, EndOf(records))
  {
    RecordsStay(LinesOf(j.file));
    assert forall i :: 0 <= i < |records| ==> LinesOf(records)[i].entry == records[i];
    assert j.file == records;
  }
}
