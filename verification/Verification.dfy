/**
 The verification pipeline after the library has answered: the composite override,
 the revocation check of every signer, the refusal of a verdict that names nobody,
 and the report. What a report of "valid" guarantees is stated over everything the
 pipeline was given.
 */
module Verification {
  import opened Prelude
  import opened Diagnoses

  /** How the library call ended; a soft failure is an outcome of verification. */
  datatype Failure = NoFailure | Soft(anchor: bool) | Hard(anchor: bool)

  datatype Library = Library(valid: bool, failure: Failure, signers: seq<Facts>)

  /** What the caller asked for, and the clock readings. */
  datatype Request = Request(checkTime: bool, verifyChain: bool, checkRevocation: bool, confirmedAt: Time,
                             reportedAt: Time)

  /** The answer to a revocation check. */
  datatype Answer = CheckFailed | Answered(revocation: Revocation)

  datatype Report = Report(verdict: Verdict, steps: seq<Step>, signers: seq<Signer>)

  predicate AnchorFailure(f: Failure) { !f.NoFailure? && f.anchor }

  // ---------------------------------------------------------------- what the pipeline computes

  predicate InWindow(f: Facts, now: Time) {
    f.notBefore.Some? && f.notAfter.Some? && f.notBefore.value <= now <= f.notAfter.value
  }

  /** The library rejected only the time-checked form, and everything else confirms the signature. */
  predicate Overridden(lib: Library, req: Request, mathHolds: bool) {
    && !lib.valid && req.verifyChain && req.checkTime && AnchorFailure(lib.failure)
    && |lib.signers| > 0 && (forall f <- lib.signers :: f.chainVerified && f.anchored && InWindow(f, req.confirmedAt))
    && mathHolds
  }

  predicate FoundRevoked(f: Facts, a: Answer) {
    f.hasPem && a.Answered? && a.revocation.determinate && a.revocation.revoked
  }

  function Looked(f: Facts, valid: bool, a: Answer): (s: Signer) {
    Signer(f, valid && !FoundRevoked(f, a),
           if !f.hasPem then None else if a.CheckFailed? then Some(Revocation(false, false)) else Some(a.revocation))
  }

  function Checked(lib: Library, req: Request, mathHolds: bool, answers: nat -> Answer): (out: Output) {
    var held := lib.valid || Overridden(lib, req, mathHolds);
    var n := |lib.signers|;
    if held && req.checkRevocation then
      Output(n > 0 && forall i :: 0 <= i < n ==> !FoundRevoked(lib.signers[i], answers(i)),
             seq(n, i requires 0 <= i < n => Looked(lib.signers[i], true, answers(i))))
    else Output(held && n > 0, seq(n, i requires 0 <= i < n => Signer(lib.signers[i], held, None)))
  }

  /** No report when the library failed for reasons of its own. */
  function Reported(lib: Library, req: Request, mathHolds: bool, answers: nat -> Answer): (r: Option<Report>) {
    if lib.failure.Hard? && !Overridden(lib, req, mathHolds) then None
    else
      var out := Checked(lib, req, mathHolds, answers);
      var steps := Diagnosis(out, req.checkTime, req.verifyChain, req.reportedAt);
      Some(Report(VerdictOf(out.valid, steps), steps, out.signers))
  }

  // ---------------------------------------------------------------- the pipeline

  method Confirms(signers: seq<Signer>, now: Time, mathHolds: bool) returns (ok: bool)
    ensures ok <==>
      && |signers| > 0 && mathHolds
      && forall s <- signers :: s.facts.chainVerified && s.facts.anchored && InWindow(s.facts, now)
  {
    if |signers| == 0 { return false; }
    for i := 0 to |signers|
      invariant forall k :: 0 <= k < i ==>
        signers[k].facts.chainVerified && signers[k].facts.anchored && InWindow(signers[k].facts, now)
    {
      var f := signers[i].facts;
      if !f.chainVerified || !f.anchored { return false; }
      if f.notBefore.None? || f.notAfter.None? || now < f.notBefore.value || now > f.notAfter.value { return false; }
    }
    return mathHolds;
  }

  /** Looks every signer up; one found revoked spoils the whole. */
  method CheckRevocation(signers: seq<Signer>, answers: nat -> Answer) returns (out: Output)
    requires forall s <- signers :: s.revocation == None
    ensures |out.signers| == |signers|
    ensures forall i :: 0 <= i < |signers| ==> out.signers[i] == Looked(signers[i].facts, signers[i].valid, answers(i))
    ensures out.valid <==> forall i :: 0 <= i < |signers| ==> !FoundRevoked(signers[i].facts, answers(i))
  {
    out := Output(true, signers);
    for i := 0 to |signers|
      invariant |out.signers| == |signers|
      invariant forall k :: 0 <= k < i ==> out.signers[k] == Looked(signers[k].facts, signers[k].valid, answers(k))
      invariant forall k :: i <= k < |signers| ==> out.signers[k] == signers[k]
      invariant out.valid <==> forall k :: 0 <= k < i ==> !FoundRevoked(signers[k].facts, answers(k))
    {
      var s := out.signers[i];
      if !s.facts.hasPem { continue; }
      if answers(i).CheckFailed? {
        out := out.(signers := out.signers[i := s.(revocation := Some(Revocation(false, false)))]);
        continue;
      }
      var r := answers(i).revocation;
      s := s.(revocation := Some(r));
      if r.determinate && r.revoked {
        out := out.(valid := false);
        s := s.(valid := false);
      }
      out := out.(signers := out.signers[i := s]);
    }
  }

  method Verify(lib: Library, req: Request, mathHolds: bool, answers: nat -> Answer) returns (r: Option<Report>)
    ensures r == Reported(lib, req, mathHolds, answers)
  {
    hide Diagnosis, VerdictOf;
    var n := |lib.signers|;
    var out := Output(lib.valid, seq(n, i requires 0 <= i < n => Signer(lib.signers[i], lib.valid, None)));
    var failure := lib.failure;
    if !out.valid && req.verifyChain && req.checkTime && AnchorFailure(failure) {
      var ok := Confirms(out.signers, req.confirmedAt, mathHolds);
      assert ok <==> Overridden(lib, req, mathHolds) by { SameFacts(lib.signers, out.signers); }
      if ok {
        out := Output(true, seq(n, i requires 0 <= i < n => Signer(lib.signers[i], true, None)));
        failure := NoFailure;
      }
    }
    if out.valid && req.checkRevocation {
      out := CheckRevocation(out.signers, answers);
    }
    if out.valid && |out.signers| == 0 { out := out.(valid := false); }
    assert out == Checked(lib, req, mathHolds, answers) by {
      assert out.signers == Checked(lib, req, mathHolds, answers).signers;
    }
    if failure.Hard? { return None; }
    var steps := BuildDiagnosis(out, req.checkTime, req.verifyChain, req.reportedAt);
    var verdict := VerdictFrom(out.valid, steps);
    return Some(Report(verdict, steps, out.signers));
  }

  lemma SameFacts(fs: seq<Facts>, ss: seq<Signer>)
    requires |fs| == |ss| && forall i :: 0 <= i < |fs| ==> ss[i].facts == fs[i]
    ensures forall f :: f in fs <==> exists s :: s in ss && s.facts == f
  {
    forall f | f in fs ensures exists s :: s in ss && s.facts == f {
      var i :| 0 <= i < |fs| && fs[i] == f;
      assert ss[i] in ss;
    }
  }

  // ---------------------------------------------------------------- what the verdict means

  predicate Fine(r: Option<Revocation>) { r.Some? && r.value.determinate && !r.value.revoked }

  predicate KnownRevoked(r: Option<Revocation>) { r.Some? && r.value.determinate && r.value.revoked }

  predicate KnownWindow(f: Facts) { f.notBefore.Some? && f.notAfter.Some? }

  lemma TimeStatus(ss: seq<Signer>, checkTime: bool, now: Time)
    requires |ss| > 0
    ensures var st := StepOver(TimeCheck, TimeFindings(ss, checkTime, now)).status;
      && (st == Fail <==> checkTime && exists s :: s in ss && KnownWindow(s.facts) && !InWindow(s.facts, now))
      && (st == Unknown <==> st != Fail && exists s :: s in ss && !KnownWindow(s.facts))
  {
    var fs := TimeFindings(ss, checkTime, now);
    MergedStatus(TimeCheck, fs);
    hide Merged;
    var st := StepOver(TimeCheck, fs).status;
    if s :| s in ss && !KnownWindow(s.facts) {
      var i :| 0 <= i < |ss| && ss[i] == s;
      assert fs[i].status == Unknown;
    }
    if s :| s in ss && KnownWindow(s.facts) && !InWindow(s.facts, now) {
      var i :| 0 <= i < |ss| && ss[i] == s;
      assert fs[i].status == if checkTime then Fail else Warn;
    }
    if i :| 0 <= i < |fs| && fs[i].status == Fail { assert ss[i] in ss; }
    if i :| 0 <= i < |fs| && fs[i].status == Unknown { assert ss[i] in ss; }
  }

  lemma ChainStatus(ss: seq<Signer>, verifyChain: bool)
    requires |ss| > 0
    ensures var st := ChainStep(ss, verifyChain).status;
      && (st == Fail <==> verifyChain && exists s :: s in ss && !s.facts.chainVerified)
      && st != Unknown
  {
    var fs := ChainFindings(ss);
    MergedStatus(ChainCheck, fs);
    hide Merged;
    if s :| s in ss && !s.facts.chainVerified {
      var i :| 0 <= i < |ss| && ss[i] == s;
      assert fs[i].status == Fail;
    }
    if i :| 0 <= i < |fs| && fs[i].status == Fail { assert ss[i] in ss; }
  }

  /** Missing roots and anchors only ever warn. */
  lemma WarningSteps(ss: seq<Signer>)
    ensures var st := StepOver(CompleteCheck, CompleteFindings(ss)).status; st != Fail && st != Unknown
    ensures var st := StepOver(AnchorCheck, AnchorFindings(ss)).status; st != Fail && st != Unknown
  {
    MergedStatus(CompleteCheck, CompleteFindings(ss));
    MergedStatus(AnchorCheck, AnchorFindings(ss));
    hide Merged;
  }

  lemma RevocationStatus(out: Output)
    requires out.valid && |out.signers| > 0
    ensures var st := RevocationStep(out).status;
      && (st == Fail <==>
        exists s :: s in out.signers && KnownRevoked(s.revocation))
      && (st == Unknown <==> st != Fail && exists s :: s in out.signers && !Fine(s.revocation))
  {
    var ss := out.signers;
    var fs := RevocationFindings(ss);
    MergedStatus(RevocationCheck, fs);
    hide Merged;
    if s :| s in ss && KnownRevoked(s.revocation) {
      var i :| 0 <= i < |ss| && ss[i] == s;
      assert fs[i].status == Fail;
    }
    if s :| s in ss && !Fine(s.revocation) {
      var i :| 0 <= i < |ss| && ss[i] == s;
      assert fs[i].status == Unknown || fs[i].status == Fail;
    }
    if i :| 0 <= i < |fs| && fs[i].status == Fail { assert ss[i] in ss; }
    if i :| 0 <= i < |fs| && fs[i].status == Unknown { assert ss[i] in ss; }
  }

  lemma VerdictOfSix(steps: seq<Step>)
    requires |steps| == 6
    requires forall i :: 0 <= i < 6 && (i == 0 || i == 2 || i == 3) ==>
      steps[i].status != Fail && steps[i].status != Unknown
    ensures VerdictOf(true, steps) ==
      if steps[1].status == Fail then Invalid else if steps[1].status == Unknown then Indeterminate
      else if steps[4].status == Fail then Invalid else if steps[4].status == Unknown then Indeterminate
      else if steps[5].status == Fail then Invalid else if steps[5].status == Unknown then Indeterminate
      else Valid
  {
    hide VerdictOf;
    assert steps[0..] == steps;
    VerdictFromStep(steps, 0);
    VerdictFromStep(steps, 1);
    VerdictFromStep(steps, 2);
    VerdictFromStep(steps, 3);
    VerdictFromStep(steps, 4);
    VerdictFromStep(steps, 5);
    VerdictOfNone(steps[6..]);
  }

  lemma VerdictFromStep(steps: seq<Step>, i: nat)
    requires i < |steps|
    ensures VerdictOf(true, steps[i..]) ==
      if steps[i].status == Fail then Invalid else if steps[i].status == Unknown then Indeterminate
      else VerdictOf(true, steps[i + 1..])
  {
    assert steps[i..][1..] == steps[i + 1..];
  }

  lemma VerdictOfNone(steps: seq<Step>)
    requires |steps| == 0
    ensures VerdictOf(true, steps) == Valid
  {
  }

  /** The three verdicts, each by its exact condition on the checked output. */
  lemma VerdictExactly(out: Output, checkTime: bool, verifyChain: bool, now: Time)
    requires out.valid && |out.signers| > 0
    ensures var v := VerdictOf(true, Diagnosis(out, checkTime, verifyChain, now));
      var outside := checkTime && exists s :: s in out.signers && KnownWindow(s.facts) && !InWindow(s.facts, now);
      var unknown := exists s :: s in out.signers && !KnownWindow(s.facts);
      var broken := verifyChain && exists s :: s in out.signers && !s.facts.chainVerified;
      var revoked := exists s :: s in out.signers && KnownRevoked(s.revocation);
      && (v == Invalid <==> outside || (!unknown && (broken || revoked)))
      && (v == Valid <==> !outside && !unknown && !broken && forall s <- out.signers :: Fine(s.revocation))
  {
    hide StepOver, ChainStep, RevocationStep, TimeFindings, CompleteFindings, AnchorFindings, VerdictOf, InWindow,
         KnownWindow;
    TimeStatus(out.signers, checkTime, now);
    ChainStatus(out.signers, verifyChain);
    WarningSteps(out.signers);
    RevocationStatus(out);
    VerdictOfSix(Diagnosis(out, checkTime, verifyChain, now));
  }

  /** What a caller may rely on when the report says "valid". */
  predicate Trustworthy(f: Facts, a: Answer, req: Request) {
    && f.hasPem && a.Answered? && a.revocation.determinate && !a.revocation.revoked
    && KnownWindow(f) && (req.checkTime ==> InWindow(f, req.reportedAt)) && (req.verifyChain ==> f.chainVerified)
  }

  /** A report says "valid" if and only if the signature held, somebody signed, revocation was
      asked for, and every signer is trustworthy: a determinate answer that says not revoked, a
      known window, inside it when time was checked, and a verified chain when chains were. */
  lemma ValidExactly(lib: Library, req: Request, mathHolds: bool, answers: nat -> Answer)
    ensures var r := Reported(lib, req, mathHolds, answers);
      r.Some? && r.value.verdict == Valid <==>
        && ((lib.valid && !lib.failure.Hard?) || Overridden(lib, req, mathHolds))
        && |lib.signers| > 0 && req.checkRevocation
        && forall i :: 0 <= i < |lib.signers| ==> Trustworthy(lib.signers[i], answers(i), req)
  {
    hide Diagnosis, VerdictOf, InWindow, Overridden;
    var out := Checked(lib, req, mathHolds, answers);
    if out.valid {
      VerdictExactly(out, req.checkTime, req.verifyChain, req.reportedAt);
      if req.checkRevocation { EverySigner(lib, req, out, answers); } else { assert out.signers[0] in out.signers; }
    } else {
      InvalidFirst(Diagnosis(out, req.checkTime, req.verifyChain, req.reportedAt));
    }
  }

  lemma InvalidFirst(steps: seq<Step>)
    ensures VerdictOf(false, steps) == Invalid
  {
  }

  lemma EverySigner(lib: Library, req: Request, out: Output, answers: nat -> Answer)
    requires |out.signers| == |lib.signers|
    requires forall i :: 0 <= i < |lib.signers| ==> out.signers[i] == Looked(lib.signers[i], true, answers(i))
    ensures (forall i :: 0 <= i < |lib.signers| ==> Trustworthy(lib.signers[i], answers(i), req)) <==>
      forall s <- out.signers :: SignerFine(s, req)
  {
    hide InWindow;
    if forall s <- out.signers :: SignerFine(s, req) {
      forall i | 0 <= i < |lib.signers| ensures Trustworthy(lib.signers[i], answers(i), req) {
        assert out.signers[i] in out.signers;
      }
    }
  }

  predicate SignerFine(s: Signer, req: Request) {
    && Fine(s.revocation) && KnownWindow(s.facts)
    && (req.checkTime ==> InWindow(s.facts, req.reportedAt)) && (req.verifyChain ==> s.facts.chainVerified)
  }

  /** A signer known to be revoked always makes the report invalid. */
  lemma RevokedIsInvalid(lib: Library, req: Request, mathHolds: bool, answers: nat -> Answer, i: nat)
    requires i < |lib.signers| && FoundRevoked(lib.signers[i], answers(i)) && req.checkRevocation
    ensures var r := Reported(lib, req, mathHolds, answers); r.Some? ==> r.value.verdict == Invalid
  {
    hide Diagnosis, Overridden;
  }

  /** A failing step alone does not make a report invalid: an unknown window hides a broken chain. */
  lemma FailingStepHidden(f: Facts, now: Time)
    requires f.notBefore == None && !f.chainVerified
    ensures var out := Output(true, [Signer(f, true, Some(Revocation(true, false)))]);
      ChainStep(out.signers, true).status == Fail && VerdictOf(true, Diagnosis(out, true, true, now)) == Indeterminate
  {
    var out := Output(true, [Signer(f, true, Some(Revocation(true, false)))]);
    hide VerdictOf, Diagnosis, StepOver, RevocationStep, InWindow, TimeFindings;
    ChainStatus(out.signers, true);
    VerdictExactly(out, true, true, now);
    assert out.signers[0] in out.signers && !KnownWindow(out.signers[0].facts);
  }
}
