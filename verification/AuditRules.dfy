/** The journal's text, seal and chain, spelled out. */
module AuditRules {
  import opened Prelude
  import opened Audit

  /** The number a string of decimal digits denotes. */
  function ValueOf(s: string): (n: int) {
    if |s| == 0 then 0 else ValueOf(s[..|s| - 1]) * 10 + (s[|s| - 1] as int - '0' as int)
  }

  /** Numbers are written in decimal digits without leading zeros. */
  lemma {:induction false} DecimalDenotes(n: nat)
    ensures ValueOf(Decimal(n)) == n && (|Decimal(n)| > 1 ==> Decimal(n)[0] != '0')
    ensures forall c <- Decimal(n) :: '0' <= c <= '9'
  {
    var s := Decimal(n);
    if n >= 10 {
      DecimalDenotes(n / 10);
      assert s[..|s| - 1] == Decimal(n / 10);
      assert n / 10 < 10 ==> Decimal(n / 10) == [Digit(n / 10)];
    } else {
      assert s[..|s| - 1] == [];
    }
  }

  lemma LinesCons(x: string, rest: seq<string>)
    ensures Lines([x] + rest) == x + "\n" + Lines(rest)
  {
    assert ([x] + rest)[1..] == rest;
  }

  /** What is hashed: nine lines, in this order. */
  lemma TextLines(e: Entry)
    ensures Text(e) == Decimal(e.seqNo) + "\n" + (e.at + "\n" + (e.op + "\n" + (e.actor + "\n" + (e.subject + "\n"
      + (e.signer + "\n" + (e.outcome + "\n" + (e.detail + "\n" + (e.prevHash + "\n"))))))))
  {
    hide Lines, Decimal;
    var tail := [e.outcome] + ([e.detail] + ([e.prevHash] + []));
    var middle := [e.actor] + ([e.subject] + ([e.signer] + tail));
    assert Fields(e) == [Decimal(e.seqNo)] + ([e.at] + ([e.op] + middle));
    LinesCons(Decimal(e.seqNo), [e.at] + ([e.op] + middle));
    LinesCons(e.at, [e.op] + middle);
    LinesCons(e.op, middle);
    LinesCons(e.actor, [e.subject] + ([e.signer] + tail));
    LinesCons(e.subject, [e.signer] + tail);
    LinesCons(e.signer, tail);
    LinesCons(e.outcome, [e.detail] + ([e.prevHash] + []));
    LinesCons(e.detail, [e.prevHash] + []);
    LinesCons(e.prevHash, []);
    NoLines();
    assert e.prevHash + "\n" + "" == e.prevHash + "\n";
  }

  lemma NoLines()
    ensures Lines([]) == ""
  {
  }

  /** An appended entry carries the event as it was reported, the next number, the hash before it,
      the hash of its own text and a seal over number and hash. */
  lemma SealedWith(h: string -> string, sign: (nat, string) -> string, p: Position, ev: Event, at: string)
    ensures var e := Sealed(h, sign, p, ev, at);
      && e.seqNo == p.seqNo + 1 && e.prevHash == p.hash && e.at == at
      && e.op == ev.op && e.actor == ev.actor && e.subject == ev.subject && e.signer == ev.signer
      && e.outcome == ev.outcome && e.detail == ev.detail
      && e.hash == h(Text(e)) && e.signature == sign(e.seqNo, e.hash)
  {
    hide Text;
  }

  /** An entry in its place: numbered, naming the hash before it, hashing its text, well sealed. */
  predicate InPlace(h: string -> string, signed: Entry -> bool, es: seq<Entry>, i: nat)
    requires i < |es|
  {
    && es[i].seqNo == i + 1 && es[i].prevHash == (if i == 0 then "genesis" else es[i - 1].hash)
    && es[i].hash == h(Text(es[i])) && signed(es[i])
  }

  /** A journal is intact if and only if its entries are numbered from one, each names the hash
      before it, the first one the word genesis, each hashes its own text, and each seal is good. */
  lemma IntactExactly(h: string -> string, signed: Entry -> bool, es: seq<Entry>)
    ensures Chain(h, signed, es) <==> forall i :: 0 <= i < |es| ==> InPlace(h, signed, es, i)
  {
    hide Text;
    forall i: nat | i < |es| ensures Linked(h, signed, es, i) <==> InPlace(h, signed, es, i) {
      if i > 0 { assert es[..i][i - 1] == es[i - 1]; }
    }
  }

  /** A report says intact only of a journal that reads as such an unbroken chain. */
  lemma ReportMeans(h: string -> string, signed: Entry -> bool, lines: seq<Line>, readError: bool, res: VerifyResult)
    requires Reports(h, signed, lines, readError, res) && res.intact
    ensures !readError && forall i :: 0 <= i < |NonBlank(lines)| ==> NonBlank(lines)[i].Record?
    ensures forall i :: 0 <= i < |NonBlank(lines)| ==> InPlace(h, signed, Entries(NonBlank(lines)), i)
  {
    hide Text, Chain, InPlace;
    var ls := NonBlank(lines);
    assert ls[..|ls|] == ls;
    IntactExactly(h, signed, Entries(ls));
  }

  /** Reading the end of a file gives its last record, or the start of a chain. */
  lemma EndExactly(es: seq<Entry>)
    ensures |es| == 0 ==> EndOf(es) == Position(0, "genesis")
    ensures |es| > 0 ==> EndOf(es) == Position(es[|es| - 1].seqNo, es[|es| - 1].hash)
  {
  }

  /** What an operation does to the file and to memory, by what became of the line. */
  lemma StepExactly(h: string -> string, sign: (nat, string) -> string, j: Journal, ev: Event, at: string)
    ensures var e := Sealed(h, sign, j.position, ev, at);
      && Step(h, sign, j, Append(ev, at, Durable)) == Journal(j.file + [e], Position(e.seqNo, e.hash))
      && Step(h, sign, j, Append(ev, at, NotWritten)) == j
      && Step(h, sign, j, Append(ev, at, NotSynced)) == Journal(j.file + [e], j.position)
  {
    hide Sealed;
  }
}
