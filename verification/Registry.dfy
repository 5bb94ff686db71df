/**
 The register over a batch of verifications: one row per document and the counts an
 auditor reads first.
 */
module Registry {
  import opened Prelude
  import opened Diagnoses
  import Batch

  datatype Person = Person(name: string, iin: string, bin: string, organization: string)

  /** A signer of a report, and when they signed, if that is known. */
  datatype Party = Party(who: Person, signedAt: Option<Time>)

  datatype Document = Document(format: string, detached: bool, signatureDigest: string, contentDigest: string,
                               contentBytes: nat)

  /** A verification's report, when it made one. */
  datatype Card = Card(verdict: Verdict, summary: string, document: Document, steps: seq<Step>, parties: seq<Party>)

  datatype Reason = NoReason | OfCheck(check: Check) | OfError(kind: string)

  datatype Row = Row(index: nat, ref: string, verdict: Verdict, summary: string, signers: seq<Person>,
                     signedAt: Option<Time>,
                     reason: Reason, document: Document, error: Option<Batch.ItemError>)

  const NO_DOCUMENT := Document("", false, "", "", 0)

  function BlankRow(index: nat, ref: string): (r: Row) {
    Row(index, ref, Indeterminate, "", [], None, NoReason, NO_DOCUMENT, None)
  }

  datatype Register = Register(total: nat, valid: nat, invalid: nat, indeterminate: nat, failed: nat, rows: seq<Row>)

  type Outcome = Option<Card>

  // ---------------------------------------------------------------- one row

  function FirstTime(parties: seq<Party>): (r: Option<Time>) {
    if |parties| == 0 then None else if parties[0].signedAt.Some? then parties[0].signedAt else FirstTime(parties[1..])
  }

  predicate Problem(s: Step) { s.status == Fail || s.status == Unknown }

  function FirstProblem(steps: seq<Step>): (r: Reason) {
    if |steps| == 0 then NoReason else if Problem(steps[0]) then OfCheck(steps[0].check) else FirstProblem(steps[1..])
  }

  function People(parties: seq<Party>): (r: seq<Person>) {
    seq(|parties|, i requires 0 <= i < |parties| => parties[i].who)
  }

  function FilledRow(row: Row, card: Option<Card>): (r: Row) {
    if card.None? then row.(verdict := Indeterminate)
    else
      var c := card.value;
      row.(verdict := c.verdict, summary := c.summary, document := c.document,
        signers := row.signers + People(c.parties),
           signedAt := if row.signedAt.Some? then row.signedAt else FirstTime(c.parties),
           reason := if c.verdict == Valid then row.reason else FirstProblem(c.steps))
  }

  method FirstProblemStep(steps: seq<Step>) returns (r: Reason)
    ensures r == FirstProblem(steps)
  {
    for i := 0 to |steps|
      invariant FirstProblem(steps) == FirstProblem(steps[i..])
    {
      assert steps[i..][1..] == steps[i + 1..];
      if Problem(steps[i]) { return OfCheck(steps[i].check); }
    }
    return NoReason;
  }

  method FillRow(row: Row, card: Option<Card>) returns (r: Row)
    ensures r == FilledRow(row, card)
  {
    if card.None? { return row.(verdict := Indeterminate); }
    var ps := card.value.parties;
    var signers, at := row.signers, row.signedAt;
    for i := 0 to |ps|
      invariant signers == row.signers + People(ps)[..i]
      invariant (if at.Some? then at else FirstTime(ps[i..])) ==
        if row.signedAt.Some? then row.signedAt else FirstTime(ps)
    {
      assert ps[i..][1..] == ps[i + 1..];
      signers := signers + [ps[i].who];
      if at.None? { at := ps[i].signedAt; }
    }
    var reason := row.reason;
    if card.value.verdict != Valid { reason := FirstProblemStep(card.value.steps); }
    return row.(verdict := card.value.verdict, summary := card.value.summary, document := card.value.document,
                signers := signers, signedAt := at, reason := reason);
  }

  /** A report made by the pipeline is valid exactly when none of its steps is a problem, so a
      row without a verdict of valid names the check to blame unless the signature itself failed. */
  lemma {:induction false} ReasonNamed(steps: seq<Step>)
    ensures VerdictOf(true, steps) == Valid <==> FirstProblem(steps) == NoReason
  {
    if |steps| > 0 { ReasonNamed(steps[1..]); }
  }

  // ---------------------------------------------------------------- the counts

  type Item = Batch.Item<Outcome>

  datatype Kind = IsValid | IsInvalid | IsIndeterminate | IsFailed

  function KindOf(i: Item): (k: Kind) {
    if i.Skipped? || i.outcome.Failed? then IsFailed
    else if i.outcome.output.None? then IsIndeterminate
    else KindOfVerdict(i.outcome.output.value.verdict)
  }

  function KindOfVerdict(v: Verdict): (k: Kind) {
    match v
    case Valid => IsValid
    case Invalid => IsInvalid
    case Indeterminate => IsIndeterminate
  }

  function Number(items: seq<Item>, k: Kind): (n: nat) {
    if |items| == 0 then 0 else Number(items[..|items| - 1], k) + if KindOf(items[|items| - 1]) == k then 1 else 0
  }

  function RowOf(i: Item, refs: seq<string>): (r: Row) {
    var row := BlankRow(i.index, if i.index < |refs| then refs[i.index] else "");
    match i
    case Skipped(_) => row
    case Done(_, Failed(e)) => row.(error := Some(e), summary := e.message, reason := OfError(e.kind))
    case Done(_, Succeeded(card)) => FilledRow(row, card)
  }

  method BuildRow(item: Item, refs: seq<string>) returns (row: Row)
    ensures row == RowOf(item, refs)
    ensures item.Done? && item.outcome.Succeeded? ==> KindOf(item) == KindOfVerdict(row.verdict)
  {
    row := BlankRow(item.index, "");
    if item.index < |refs| { row := row.(ref := refs[item.index]); }
    if item.Skipped? { return; }
    if item.outcome.Failed? {
      row := row.(error := Some(item.outcome.error));
      return row.(summary := item.outcome.error.message, reason := OfError(item.outcome.error.kind));
    }
    row := FillRow(row, item.outcome.output);
  }

  method Summarise(results: seq<Item>, refs: seq<string>) returns (out: Register)
    ensures out.total == |results| == |out.rows| && forall i :: 0 <= i < |results| ==>
      out.rows[i] == RowOf(results[i], refs)
    ensures out.valid == Number(results, IsValid) && out.invalid == Number(results, IsInvalid)
    ensures out.indeterminate == Number(results, IsIndeterminate) && out.failed == Number(results, IsFailed)
    ensures out.valid + out.invalid + out.indeterminate + out.failed == out.total
  {
    hide RowOf, KindOf;
    out := Register(|results|, 0, 0, 0, 0, []);
    for k := 0 to |results|
      invariant out.total == |results| && |out.rows| == k && forall i :: 0 <= i < k ==>
        out.rows[i] == RowOf(results[i], refs)
      invariant out.valid == Number(results[..k], IsValid) && out.invalid == Number(results[..k], IsInvalid)
      invariant out.indeterminate == Number(results[..k], IsIndeterminate)
        && out.failed == Number(results[..k], IsFailed)
      invariant out.valid + out.invalid + out.indeterminate + out.failed == k
    {
      assert results[..k + 1][..k] == results[..k];
      var row := BuildRow(results[k], refs);
      match KindOf(results[k]) {
        case IsFailed => out := out.(failed := out.failed + 1);
        case IsValid => out := out.(valid := out.valid + 1);
        case IsInvalid => out := out.(invalid := out.invalid + 1);
        case IsIndeterminate => out := out.(indeterminate := out.indeterminate + 1);
      }
      out := out.(rows := out.rows + [row]);
    }
    assert results[..|results|] == results;
  }

  /** The register's failures are exactly the items without a verdict. */
  lemma {:induction false} FailedRows(results: seq<Item>)
    ensures Number(results, IsFailed) == |results| - |Batch.Winners(results)|
  {
    if |results| > 0 {
      var n := |results| - 1;
      var before := results[..n];
      FailedRows(before);
      if KindOf(results[n]) == IsFailed {
        assert Batch.Winners(results) == Batch.Winners(before);
      } else {
        assert Batch.Winners(results) == Batch.Winners(before) + {n};
      }
    } else {
      assert Batch.Winners(results) == {};
    }
  }

  /** However the batch was scheduled, the register accounts for every document: those that got
      a verdict are the batch's successes, and the failed ones its failures and omissions. */
  lemma RegisterConserves(p: Batch.Setup, steps: seq<Batch.Step<Outcome>>)
    requires Batch.Run(p, steps).dispatcher == Batch.Finished
    ensures var s := Batch.Run(p, steps);
      && Number(s.results, IsValid) + Number(s.results, IsInvalid) + Number(s.results, IsIndeterminate) == s.succeeded
      && Number(s.results, IsFailed) == s.failedCount + |Batch.Omitted(s.results)|
  {
    hide Batch.Run;
    Batch.BatchConserves(p, steps);
    var s := Batch.Run(p, steps);
    FailedRows(s.results);
    Kinds(s.results);
  }

  lemma {:induction false} Kinds(items: seq<Item>)
    ensures Number(items, IsValid) + Number(items, IsInvalid) +
      Number(items, IsIndeterminate) + Number(items, IsFailed) == |items|
  {
    if |items| > 0 { Kinds(items[..|items| - 1]); }
  }
}
