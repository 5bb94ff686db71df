/**
 How a verification becomes a verdict: the library's answer and the checks made of
 every signer are merged, step by step, into an ordered diagnosis and then into one
 of three verdicts.
 */
module Diagnoses {
  import opened Prelude

  type Time = int

  datatype Status = Pass | Fail | Warn | Skipped | Unknown

  function Severity(s: Status): (r: nat) {
    match s
    case Fail => 4
    case Unknown => 3
    case Warn => 2
    case Pass => 1
    case Skipped => 0
  }

  /** The text of a step, by what it says. */
  datatype Cause =
    | AllWell | NoSigner | NotVerified | WindowUnknown | NotYetValid | Expired | ChainIncomplete | NotAnchored
    | ChainUnverified | ChainNotChecked | RevocationNotChecked | RevocationNotEstablished | IsRevoked | NotReached

  datatype Check = SignatureCheck | TimeCheck | CompleteCheck | AnchorCheck | ChainCheck | RevocationCheck

  datatype Step = Step(check: Check, status: Status, cause: Cause)

  /** What one signer contributes to a step. */
  datatype Finding = Finding(status: Status, cause: Cause)

  /** What is known of a signer's certificate and chain. */
  datatype Facts = Facts(notBefore: Option<Time>, notAfter: Option<Time>, chainComplete: bool, anchored: bool,
                         chainVerified: bool, hasPem: bool)

  datatype Revocation = Revocation(determinate: bool, revoked: bool)

  datatype Signer = Signer(facts: Facts, valid: bool, revocation: Option<Revocation>)

  datatype Output = Output(valid: bool, signers: seq<Signer>)

  // ---------------------------------------------------------------- merging

  function Merge(s: Step, f: Finding): (r: Step) {
    if Severity(f.status) > Severity(s.status) then s.(status := f.status, cause := f.cause) else s
  }

  /** All findings merged in, first to last. */
  function Merged(s: Step, fs: seq<Finding>): (r: Step) {
    if |fs| == 0 then s else Merge(Merged(s, fs[..|fs| - 1]), fs[|fs| - 1])
  }

  /** The merged status is the worst there is, and the text is that of the first finding so bad. */
  lemma {:induction false} MergedIsWorst(s: Step, fs: seq<Finding>)
    ensures var r := Merged(s, fs);
      && r.check == s.check && Severity(s.status) <= Severity(r.status)
      && (forall i :: 0 <= i < |fs| ==> Severity(fs[i].status) <= Severity(r.status))
      && (r == s ||
          exists i :: 0 <= i < |fs| && FirstWorst(s, fs, i) && r.status == fs[i].status && r.cause == fs[i].cause)
  {
    hide Severity;
    if |fs| > 0 {
      var n := |fs| - 1;
      MergedIsWorst(s, fs[..n]);
      var before := Merged(s, fs[..n]);
      if Severity(fs[n].status) > Severity(before.status) {
        assert forall i :: 0 <= i < n ==> fs[..n][i] == fs[i];
        assert FirstWorst(s, fs, n);
      } else if before != s {
        var i :| 0 <= i < n && FirstWorst(s, fs[..n], i) && before.status == fs[..n][i].status
          && before.cause == fs[..n][i].cause;
        assert FirstWorst(s, fs, i) by { assert forall k :: 0 <= k < i ==> fs[..n][k] == fs[k]; }
      }
    }
  }

  /** Worse than the starting step and than every finding before it. */
  predicate FirstWorst(s: Step, fs: seq<Finding>, i: nat)
    requires i < |fs|
  {
    && Severity(fs[i].status) > Severity(s.status)
    && forall k :: 0 <= k < i ==> Severity(fs[k].status) < Severity(fs[i].status)
  }

  lemma SeverityTells(a: Status, b: Status)
    requires Severity(a) == Severity(b)
    ensures a == b
  {
  }

  /** The order of the signers does not matter to a step's status. */
  lemma MergedOrderFree(s: Step, a: seq<Finding>, b: seq<Finding>)
    requires multiset(a) == multiset(b)
    ensures Merged(s, a).status == Merged(s, b).status
  {
    NoWorse(s, a, b);
    NoWorse(s, b, a);
    SeverityTells(Merged(s, a).status, Merged(s, b).status);
  }

  lemma NoWorse(s: Step, a: seq<Finding>, b: seq<Finding>)
    requires multiset(a) == multiset(b)
    ensures Severity(Merged(s, a).status) <= Severity(Merged(s, b).status)
  {
    hide Severity, Merged;
    MergedIsWorst(s, a);
    MergedIsWorst(s, b);
    var r := Merged(s, a);
    if r != s {
      var i :| 0 <= i < |a| && r.status == a[i].status;
      assert a[i] in multiset(a);
      assert a[i] in b;
    }
  }

  /** From a passing step: what each status says about the findings. */
  lemma MergedStatus(c: Check, fs: seq<Finding>)
    ensures var r := Merged(Step(c, Pass, AllWell), fs).status;
      && (r == Fail <==> exists i :: 0 <= i < |fs| && fs[i].status == Fail)
      && (r == Unknown <==>
        (exists i :: 0 <= i < |fs| && fs[i].status == Unknown) && forall i :: 0 <= i < |fs| ==> fs[i].status != Fail)
      && r != Skipped
  {
    hide Merged;
    MergedIsWorst(Step(c, Pass, AllWell), fs);
  }

  // ---------------------------------------------------------------- what each signer contributes

  function TimeFinding(f: Facts, checkTime: bool, now: Time): (r: Finding) {
    var bad := if checkTime then Fail else Warn;
    if f.notBefore.None? || f.notAfter.None? then Finding(Unknown, WindowUnknown)
    else if now < f.notBefore.value then Finding(bad, NotYetValid)
    else if now > f.notAfter.value then Finding(bad, Expired)
    else Finding(Pass, AllWell)
  }

  function CompleteFinding(f: Facts): (r: Finding) {
    if f.chainComplete then Finding(Pass, AllWell) else Finding(Warn, ChainIncomplete)
  }

  function AnchorFinding(f: Facts): (r: Finding) {
    if f.anchored then Finding(Pass, AllWell) else Finding(Warn, NotAnchored)
  }

  function ChainFinding(f: Facts): (r: Finding) {
    if f.chainVerified then Finding(Pass, AllWell) else Finding(Fail, ChainUnverified)
  }

  function RevocationFinding(r: Option<Revocation>): (f: Finding) {
    if r.None? then Finding(Unknown, RevocationNotChecked)
    else if !r.value.determinate then Finding(Unknown, RevocationNotEstablished)
    else if r.value.revoked then Finding(Fail, IsRevoked)
    else Finding(Pass, AllWell)
  }

  function TimeFindings(ss: seq<Signer>, checkTime: bool, now: Time): (r: seq<Finding>) {
    seq(|ss|, i requires 0 <= i < |ss| => TimeFinding(ss[i].facts, checkTime, now))
  }

  function CompleteFindings(ss: seq<Signer>): (r: seq<Finding>) {
    seq(|ss|, i requires 0 <= i < |ss| => CompleteFinding(ss[i].facts))
  }

  function AnchorFindings(ss: seq<Signer>): (r: seq<Finding>) {
    seq(|ss|, i requires 0 <= i < |ss| => AnchorFinding(ss[i].facts))
  }

  function ChainFindings(ss: seq<Signer>): (r: seq<Finding>) {
    seq(|ss|, i requires 0 <= i < |ss| => ChainFinding(ss[i].facts))
  }

  function RevocationFindings(ss: seq<Signer>): (r: seq<Finding>) {
    seq(|ss|, i requires 0 <= i < |ss| => RevocationFinding(ss[i].revocation))
  }

  // ---------------------------------------------------------------- the six steps

  function SignatureStep(valid: bool): (r: Step) {
    if valid then Step(SignatureCheck, Pass, AllWell) else Step(SignatureCheck, Fail, NotVerified)
  }

  function StepOver(c: Check, fs: seq<Finding>): (r: Step) {
    if |fs| == 0 then Step(c, Skipped, NoSigner) else Merged(Step(c, Pass, AllWell), fs)
  }

  function ChainStep(ss: seq<Signer>, verifyChain: bool): (r: Step) {
    if !verifyChain then Step(ChainCheck, Skipped, ChainNotChecked) else StepOver(ChainCheck, ChainFindings(ss))
  }

  /** Revocation that was never reached is skipped, not unknown. */
  function RevocationStep(out: Output): (r: Step) {
    var step := Merged(Step(RevocationCheck, Pass, AllWell), RevocationFindings(out.signers));
    if !out.valid && step.status == Unknown
      && (forall s <- out.signers :: RevocationFinding(s.revocation).status != Pass) then
      Step(RevocationCheck, Skipped, NotReached)
    else if |out.signers| == 0 then Step(RevocationCheck, Skipped, NoSigner)
    else step
  }

  function Diagnosis(out: Output, checkTime: bool, verifyChain: bool, now: Time): (r: seq<Step>) {
    [SignatureStep(out.valid), StepOver(TimeCheck, TimeFindings(out.signers, checkTime, now)),
     StepOver(CompleteCheck, CompleteFindings(out.signers)), StepOver(AnchorCheck, AnchorFindings(out.signers)),
     ChainStep(out.signers, verifyChain), RevocationStep(out)]
  }

  lemma MergedSnoc(s: Step, fs: seq<Finding>, k: nat)
    requires k < |fs|
    ensures Merged(s, fs[..k + 1]) == Merge(Merged(s, fs[..k]), fs[k])
  {
    assert fs[..k + 1][..k] == fs[..k];
  }

  method BuildTimeStep(ss: seq<Signer>, checkTime: bool, now: Time) returns (step: Step)
    ensures step == StepOver(TimeCheck, TimeFindings(ss, checkTime, now))
  {
    step := Step(TimeCheck, Pass, AllWell);
    if |ss| == 0 { return Step(TimeCheck, Skipped, NoSigner); }
    var bad := if checkTime then Fail else Warn;
    ghost var fs := TimeFindings(ss, checkTime, now);
    for i := 0 to |ss|
      invariant step == Merged(Step(TimeCheck, Pass, AllWell), fs[..i]) && Severity(step.status) >= 1
    {
      MergedSnoc(Step(TimeCheck, Pass, AllWell), fs, i);
      var f := ss[i].facts;
      if f.notBefore.None? || f.notAfter.None? { step := Merge(step, Finding(Unknown, WindowUnknown)); continue; }
      if now < f.notBefore.value {
        step := Merge(step, Finding(bad, NotYetValid));
      } else if now > f.notAfter.value {
        step := Merge(step, Finding(bad, Expired));
      }
    }
    assert fs[..|ss|] == fs;
  }

  method BuildCompleteStep(ss: seq<Signer>) returns (step: Step)
    ensures step == StepOver(CompleteCheck, CompleteFindings(ss))
  {
    step := Step(CompleteCheck, Pass, AllWell);
    if |ss| == 0 { return Step(CompleteCheck, Skipped, NoSigner); }
    ghost var fs := CompleteFindings(ss);
    for i := 0 to |ss|
      invariant step == Merged(Step(CompleteCheck, Pass, AllWell), fs[..i]) && Severity(step.status) >= 1
    {
      MergedSnoc(Step(CompleteCheck, Pass, AllWell), fs, i);
      if !ss[i].facts.chainComplete { step := Merge(step, Finding(Warn, ChainIncomplete)); }
    }
    assert fs[..|ss|] == fs;
  }

  method BuildAnchorStep(ss: seq<Signer>) returns (step: Step)
    ensures step == StepOver(AnchorCheck, AnchorFindings(ss))
  {
    step := Step(AnchorCheck, Pass, AllWell);
    if |ss| == 0 { return Step(AnchorCheck, Skipped, NoSigner); }
    ghost var fs := AnchorFindings(ss);
    for i := 0 to |ss|
      invariant step == Merged(Step(AnchorCheck, Pass, AllWell), fs[..i]) && Severity(step.status) >= 1
    {
      MergedSnoc(Step(AnchorCheck, Pass, AllWell), fs, i);
      if !ss[i].facts.anchored { step := Merge(step, Finding(Warn, NotAnchored)); }
    }
    assert fs[..|ss|] == fs;
  }

  method BuildChainStep(ss: seq<Signer>, verifyChain: bool) returns (step: Step)
    ensures step == ChainStep(ss, verifyChain)
  {
    if !verifyChain { return Step(ChainCheck, Skipped, ChainNotChecked); }
    step := Step(ChainCheck, Pass, AllWell);
    if |ss| == 0 { return Step(ChainCheck, Skipped, NoSigner); }
    ghost var fs := ChainFindings(ss);
    for i := 0 to |ss|
      invariant step == Merged(Step(ChainCheck, Pass, AllWell), fs[..i]) && Severity(step.status) >= 1
    {
      MergedSnoc(Step(ChainCheck, Pass, AllWell), fs, i);
      if !ss[i].facts.chainVerified { step := Merge(step, Finding(Fail, ChainUnverified)); }
    }
    assert fs[..|ss|] == fs;
  }

  method BuildRevocationStep(out: Output) returns (step: Step)
    ensures step == RevocationStep(out)
  {
    var ss := out.signers;
    var checked := 0;
    step := Step(RevocationCheck, Pass, AllWell);
    ghost var fs := RevocationFindings(ss);
    for i := 0 to |ss|
      invariant step == Merged(Step(RevocationCheck, Pass, AllWell), fs[..i]) && Severity(step.status) >= 1
        && 0 <= checked
      invariant checked == 0 <==> forall k :: 0 <= k < i ==> RevocationFinding(ss[k].revocation).status != Pass
    {
      MergedSnoc(Step(RevocationCheck, Pass, AllWell), fs, i);
      var r := ss[i].revocation;
      if r.None? {
        step := Merge(step, Finding(Unknown, RevocationNotChecked));
      } else if !r.value.determinate {
        step := Merge(step, Finding(Unknown, RevocationNotEstablished));
      } else if r.value.revoked {
        step := Merge(step, Finding(Fail, IsRevoked));
      } else {
        checked := checked + 1;
      }
    }
    assert fs[..|ss|] == fs;
    if !out.valid && checked == 0 && step.status == Unknown { return Step(RevocationCheck, Skipped, NotReached); }
    if |ss| == 0 { return Step(RevocationCheck, Skipped, NoSigner); }
  }

  method BuildDiagnosis(out: Output, checkTime: bool, verifyChain: bool, now: Time) returns (steps: seq<Step>)
    ensures steps == Diagnosis(out, checkTime, verifyChain, now)
  {
    var time := BuildTimeStep(out.signers, checkTime, now);
    var complete := BuildCompleteStep(out.signers);
    var anchor := BuildAnchorStep(out.signers);
    var chain := BuildChainStep(out.signers, verifyChain);
    var revocation := BuildRevocationStep(out);
    return [SignatureStep(out.valid), time, complete, anchor, chain, revocation];
  }

  // ---------------------------------------------------------------- the verdict

  datatype Verdict = Valid | Invalid | Indeterminate

  /** The first failing or undetermined step decides. */
  method VerdictFrom(valid: bool, steps: seq<Step>) returns (v: Verdict)
    ensures v == VerdictOf(valid, steps)
  {
    if !valid { return Invalid; }
    for i := 0 to |steps|
      invariant forall k :: 0 <= k < i ==> steps[k].status != Fail && steps[k].status != Unknown
      invariant VerdictOf(valid, steps) == VerdictOf(valid, steps[i..])
    {
      assert steps[i..][1..] == steps[i + 1..];
      match steps[i].status {
        case Fail => return Invalid;
        case Unknown => return Indeterminate;
        case _ =>
      }
    }
    return Valid;
  }

  function VerdictOf(valid: bool, steps: seq<Step>): (v: Verdict) {
    if !valid then Invalid
    else if |steps| == 0 then Valid
    else match steps[0].status
      case Fail => Invalid
      case Unknown => Indeterminate
      case _ => VerdictOf(valid, steps[1..])
  }
}
