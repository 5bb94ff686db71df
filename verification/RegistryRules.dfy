/** What a row and the counters of the register say, in terms of the reports alone. */
module RegistryRules {
  import opened Prelude
  import opened Diagnoses
  import opened Registry
  import Batch

  // ---------------------------------------------------------------- the counters

  /** The document was verified and its report, if one was made, says this. */
  predicate Judged(item: Item, v: Verdict) {
    item.Done? && item.outcome.Succeeded? && item.outcome.output.Some? && item.outcome.output.value.verdict == v
  }

  predicate Unreported(item: Item) { item.Done? && item.outcome.Succeeded? && item.outcome.output.None? }

  predicate NoOutput(item: Item) { item.Skipped? || (item.Done? && item.outcome.Failed?) }

  ghost function Those(items: seq<Item>, k: Kind): (r: set<nat>) {
    set i | 0 <= i < |items| && KindOf(items[i]) == k
  }

  lemma {:induction false} NumberIsSize(items: seq<Item>, k: Kind)
    ensures Number(items, k) == |Those(items, k)|
  {
    if |items| > 0 {
      var n := |items| - 1;
      NumberIsSize(items[..n], k);
      if KindOf(items[n]) == k {
        assert Those(items, k) == Those(items[..n], k) + {n};
      } else {
        assert Those(items, k) == Those(items[..n], k);
      }
    } else {
      assert Those(items, k) == {};
    }
  }

  /** Each counter is the number of documents whose report says so; a verification without a
      report counts as indeterminate, and an item without any output as failed. */
  lemma CountersExactly(items: seq<Item>)
    ensures Number(items, IsValid) == |set i | 0 <= i < |items| && Judged(items[i], Valid)|
    ensures Number(items, IsInvalid) == |set i | 0 <= i < |items| && Judged(items[i], Invalid)|
    ensures Number(items, IsIndeterminate)
      == |set i | 0 <= i < |items| && (Judged(items[i], Indeterminate) || Unreported(items[i]))|
    ensures Number(items, IsFailed) == |set i | 0 <= i < |items| && NoOutput(items[i])|
  {
    NumberIsSize(items, IsValid);
    NumberIsSize(items, IsInvalid);
    NumberIsSize(items, IsIndeterminate);
    NumberIsSize(items, IsFailed);
    assert Those(items, IsValid) == set i | 0 <= i < |items| && Judged(items[i], Valid);
    assert Those(items, IsInvalid) == set i | 0 <= i < |items| && Judged(items[i], Invalid);
    assert Those(items, IsIndeterminate)
      == set i | 0 <= i < |items| && (Judged(items[i], Indeterminate) || Unreported(items[i]));
    assert Those(items, IsFailed) == set i | 0 <= i < |items| && NoOutput(items[i]);
  }

  // ---------------------------------------------------------------- a row

  /** The earliest place in the list where a signing time is known. */
  lemma {:induction false} FirstTimeExactly(ps: seq<Party>)
    ensures FirstTime(ps) == None <==> forall i :: 0 <= i < |ps| ==> ps[i].signedAt == None
    ensures forall i :: 0 <= i < |ps| && ps[i].signedAt.Some? && (forall j :: 0 <= j < i ==> ps[j].signedAt == None) ==>
      FirstTime(ps) == ps[i].signedAt
  {
    if |ps| > 0 {
      FirstTimeExactly(ps[1..]);
      assert forall i :: 0 < i < |ps| ==> ps[i] == ps[1..][i - 1];
      forall i | 0 <= i < |ps| && ps[i].signedAt.Some? && (forall j :: 0 <= j < i ==> ps[j].signedAt == None)
        ensures FirstTime(ps) == ps[i].signedAt
      {
        if i > 0 { assert forall j :: 0 <= j < i - 1 ==> ps[1..][j] == ps[j + 1]; }
      }
    }
  }

  predicate Troubled(s: Step) { s.status == Fail || s.status == Unknown }

  /** The step to blame is the first that failed or could not be determined. */
  lemma {:induction false} FirstProblemExactly(steps: seq<Step>)
    ensures FirstProblem(steps) == NoReason <==> forall i :: 0 <= i < |steps| ==> !Troubled(steps[i])
    ensures forall i :: 0 <= i < |steps| && Troubled(steps[i]) && (forall j :: 0 <= j < i ==> !Troubled(steps[j])) ==>
      FirstProblem(steps) == OfCheck(steps[i].check)
  {
    if |steps| > 0 {
      FirstProblemExactly(steps[1..]);
      assert forall i :: 0 < i < |steps| ==> steps[i] == steps[1..][i - 1];
      forall i | 0 <= i < |steps| && Troubled(steps[i]) && (forall j :: 0 <= j < i ==> !Troubled(steps[j]))
        ensures FirstProblem(steps) == OfCheck(steps[i].check)
      {
        if i > 0 { assert forall j :: 0 <= j < i - 1 ==> steps[1..][j] == steps[j + 1]; }
      }
    }
  }

  /** A reported document's row says what the report says: its verdict, its signers in order, the
      first known signing time, and a reason only where the verdict is not valid. */
  lemma ReportedRow(i: nat, card: Card, refs: seq<string>)
    ensures var row := RowOf(Batch.Done(i, Batch.Succeeded(Some(card))), refs);
      && row.index == i && row.verdict == card.verdict && row.summary == card.summary && row.document == card.document
      && |row.signers| == |card.parties| && row.error == None
      && (forall k :: 0 <= k < |card.parties| ==> row.signers[k] == card.parties[k].who)
      && row.signedAt == FirstTime(card.parties)
      && row.reason == (if card.verdict == Valid then NoReason else FirstProblem(card.steps))
  {
    hide FirstTime, FirstProblem;
  }

  /** A document without a report: the verdict is open whatever happened, a failure leaves its
      message and kind, and nothing else is said. */
  lemma UnreportedRow(item: Item, refs: seq<string>)
    requires NoOutput(item) || Unreported(item)
    ensures var row := RowOf(item, refs);
      && row.index == item.index && row.verdict == Indeterminate && row.signers == [] && row.signedAt == None
      && row.document == Document("", false, "", "", 0)
      && (item.Done? && item.outcome.Failed? ==>
        row.error == Some(item.outcome.error) && row.summary == item.outcome.error.message
        && row.reason == OfError(item.outcome.error.kind))
      && (item.Skipped? || item.outcome.Succeeded? ==> row.error == None && row.summary == "" && row.reason == NoReason)
  {
  }

  /** Every row carries the caller's label for its document, if there is one. */
  lemma LabelledRow(item: Item, refs: seq<string>)
    ensures item.index < |refs| ==> RowOf(item, refs).ref == refs[item.index]
    ensures item.index >= |refs| ==> RowOf(item, refs).ref == ""
    ensures RowOf(item, refs).index == item.index
  {
  }
}
