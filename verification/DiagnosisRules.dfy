/**
 What each step of a diagnosis answers, straight from the signers: its status by an
 exact condition, and its text by the first signer that is to blame.
 */
module DiagnosisRules {
  import opened Prelude
  import opened Diagnoses

  // ---------------------------------------------------------------- the worst status wins

  /** Fail outranks unknown, unknown outranks a warning, and a warning outranks a pass. */
  lemma MergedByRank(c: Check, fs: seq<Finding>)
    requires forall i :: 0 <= i < |fs| ==> fs[i].status != Skipped
    ensures var r := Merged(Step(c, Pass, AllWell), fs);
      && r.check == c
      && (r.status == Fail <==> exists i :: 0 <= i < |fs| && fs[i].status == Fail)
      && (r.status == Unknown <==>
        (forall i :: 0 <= i < |fs| ==> fs[i].status != Fail) && exists i :: 0 <= i < |fs| && fs[i].status == Unknown)
      && (r.status == Warn <==>
        (forall i :: 0 <= i < |fs| ==> fs[i].status != Fail && fs[i].status != Unknown)
        && exists i :: 0 <= i < |fs| && fs[i].status == Warn)
      && (r.status == Pass <==> forall i :: 0 <= i < |fs| ==> fs[i].status == Pass)
  {
    MergedIsWorst(Step(c, Pass, AllWell), fs);
    hide Merged;
  }

  /** The step speaks with the words of the first finding that has its status. */
  lemma FirstSpeaks(c: Check, fs: seq<Finding>, i: nat)
    requires i < |fs| && fs[i].status == Merged(Step(c, Pass, AllWell), fs).status != Pass
    requires forall j :: 0 <= j < i ==> fs[j].status != fs[i].status
    requires forall j :: 0 <= j < |fs| ==> fs[j].status != Skipped
    ensures Merged(Step(c, Pass, AllWell), fs).cause == fs[i].cause
  {
    var s := Step(c, Pass, AllWell);
    MergedIsWorst(s, fs);
    hide Merged;
    var r := Merged(s, fs);
    var k :| 0 <= k < |fs| && FirstWorst(s, fs, k) && r.status == fs[k].status && r.cause == fs[k].cause;
    assert k == i;
  }

  lemma AllPassing(c: Check, fs: seq<Finding>)
    requires forall i :: 0 <= i < |fs| ==> fs[i].status == Pass
    ensures Merged(Step(c, Pass, AllWell), fs) == Step(c, Pass, AllWell)
  {
    MergedIsWorst(Step(c, Pass, AllWell), fs);
  }

  // ---------------------------------------------------------------- the certificate's time

  predicate WindowKnown(f: Facts) { f.notBefore.Some? && f.notAfter.Some? }

  predicate TooEarly(f: Facts, now: Time) { WindowKnown(f) && now < f.notBefore.value }

  predicate TooLate(f: Facts, now: Time) { WindowKnown(f) && now >= f.notBefore.value && now > f.notAfter.value }

  predicate SomeOutside(ss: seq<Signer>, now: Time) {
    exists i :: 0 <= i < |ss| && (TooEarly(ss[i].facts, now) || TooLate(ss[i].facts, now))
  }

  predicate SomeUnknown(ss: seq<Signer>) { exists i :: 0 <= i < |ss| && !WindowKnown(ss[i].facts) }

  lemma TimeFindingMeans(f: Facts, checkTime: bool, now: Time)
    ensures var r := TimeFinding(f, checkTime, now);
      && (!WindowKnown(f) ==> r == Finding(Unknown, WindowUnknown))
      && (TooEarly(f, now) ==> r == Finding(if checkTime then Fail else Warn, NotYetValid))
      && (TooLate(f, now) ==> r == Finding(if checkTime then Fail else Warn, Expired))
      && (WindowKnown(f) && f.notBefore.value <= now <= f.notAfter.value ==> r == Finding(Pass, AllWell))
  {
  }

  /** A certificate outside its window fails the step when time was checked and only warns when
      it was not; an unknown window leaves it open; the bounds themselves belong to the window. */
  lemma TimeStepExactly(ss: seq<Signer>, checkTime: bool, now: Time)
    ensures var r := StepOver(TimeCheck, TimeFindings(ss, checkTime, now));
      && r.check == TimeCheck
      && (|ss| == 0 ==> r == Step(TimeCheck, Skipped, NoSigner))
      && (|ss| > 0 ==>
        && (r.status == Fail <==> checkTime && SomeOutside(ss, now))
        && (r.status == Unknown <==> SomeUnknown(ss) && !(checkTime && SomeOutside(ss, now)))
        && (r.status == Warn <==> !checkTime && SomeOutside(ss, now) && !SomeUnknown(ss))
        && (r == Step(TimeCheck, Pass, AllWell) <==> !SomeOutside(ss, now) && !SomeUnknown(ss)))
  {
    hide TimeFinding;
    var fs := TimeFindings(ss, checkTime, now);
    forall i | 0 <= i < |ss| ensures fs[i].status != Skipped {
      TimeFindingMeans(ss[i].facts, checkTime, now);
    }
    forall i | 0 <= i < |ss|
      ensures fs[i].status == Unknown <==> !WindowKnown(ss[i].facts)
      ensures fs[i].status == (if checkTime then Fail else Warn) <==>
        TooEarly(ss[i].facts, now) || TooLate(ss[i].facts, now)
      ensures fs[i].status != if checkTime then Warn else Fail
    {
      TimeFindingMeans(ss[i].facts, checkTime, now);
    }
    MergedByRank(TimeCheck, fs);
    if !SomeOutside(ss, now) && !SomeUnknown(ss) { AllPassing(TimeCheck, fs); }
    hide Merged;
  }

  /** The text of a failed or warning time step is about the first certificate that is outside. */
  lemma TimeStepBlames(ss: seq<Signer>, checkTime: bool, now: Time, i: nat)
    requires i < |ss| && (checkTime || !SomeUnknown(ss))
    requires TooEarly(ss[i].facts, now) || TooLate(ss[i].facts, now)
    requires forall j :: 0 <= j < i ==> !TooEarly(ss[j].facts, now) && !TooLate(ss[j].facts, now)
    ensures StepOver(TimeCheck, TimeFindings(ss, checkTime, now)).cause ==
      if now < ss[i].facts.notBefore.value then NotYetValid else Expired
  {
    var fs := TimeFindings(ss, checkTime, now);
    TimeStepExactly(ss, checkTime, now);
    hide TimeFinding;
    forall j | 0 <= j < |ss|
      ensures fs[j].status != Skipped
      ensures j < i ==> fs[j].status != if checkTime then Fail else Warn
      ensures j == i ==> fs[j].status == (if checkTime then Fail else Warn)
      ensures j == i ==> fs[j].cause == if now < ss[i].facts.notBefore.value then NotYetValid else Expired
    {
      TimeFindingMeans(ss[j].facts, checkTime, now);
    }
    FirstSpeaks(TimeCheck, fs, i);
  }

  // ---------------------------------------------------------------- the chain

  lemma OneKind(c: Check, fs: seq<Finding>, bad: Finding)
    requires |fs| > 0 && (bad.status == Warn || bad.status == Fail)
    requires forall i :: 0 <= i < |fs| ==> fs[i] == bad || fs[i] == Finding(Pass, AllWell)
    ensures StepOver(c, fs) == if bad in fs then Step(c, bad.status, bad.cause) else Step(c, Pass, AllWell)
  {
    MergedIsWorst(Step(c, Pass, AllWell), fs);
    hide Merged;
    if bad in fs { var i :| 0 <= i < |fs| && fs[i] == bad; }
  }

  /** A chain that does not reach a self-signed root, or no trusted one, is a warning and never
      more; one whose signatures do not verify fails, if chains were verified at all. */
  lemma ChainStepsExactly(ss: seq<Signer>, verifyChain: bool)
    requires |ss| > 0
    ensures StepOver(CompleteCheck, CompleteFindings(ss)) ==
      if exists i :: 0 <= i < |ss| && !ss[i].facts.chainComplete then Step(CompleteCheck, Warn, ChainIncomplete)
      else Step(CompleteCheck, Pass, AllWell)
    ensures StepOver(AnchorCheck, AnchorFindings(ss)) ==
      if exists i :: 0 <= i < |ss| && !ss[i].facts.anchored then Step(AnchorCheck, Warn, NotAnchored)
      else Step(AnchorCheck, Pass, AllWell)
    ensures ChainStep(ss, verifyChain) ==
      if !verifyChain then Step(ChainCheck, Skipped, ChainNotChecked)
      else if exists i :: 0 <= i < |ss| && !ss[i].facts.chainVerified then Step(ChainCheck, Fail, ChainUnverified)
      else Step(ChainCheck, Pass, AllWell)
  {
    hide StepOver, Merged;
    Complete(ss);
    Anchored(ss);
    if verifyChain { Verified(ss); }
  }

  lemma Complete(ss: seq<Signer>)
    requires |ss| > 0
    ensures StepOver(CompleteCheck, CompleteFindings(ss)) ==
      if exists i :: 0 <= i < |ss| && !ss[i].facts.chainComplete then Step(CompleteCheck, Warn, ChainIncomplete)
      else Step(CompleteCheck, Pass, AllWell)
  {
    hide StepOver;
    var fs, bad := CompleteFindings(ss), Finding(Warn, ChainIncomplete);
    OneKind(CompleteCheck, fs, bad);
    if i :| 0 <= i < |ss| && !ss[i].facts.chainComplete { assert fs[i] == bad; }
  }

  lemma Anchored(ss: seq<Signer>)
    requires |ss| > 0
    ensures StepOver(AnchorCheck, AnchorFindings(ss)) ==
      if exists i :: 0 <= i < |ss| && !ss[i].facts.anchored then Step(AnchorCheck, Warn, NotAnchored)
      else Step(AnchorCheck, Pass, AllWell)
  {
    hide StepOver;
    var fs, bad := AnchorFindings(ss), Finding(Warn, NotAnchored);
    OneKind(AnchorCheck, fs, bad);
    if i :| 0 <= i < |ss| && !ss[i].facts.anchored { assert fs[i] == bad; }
  }

  lemma Verified(ss: seq<Signer>)
    requires |ss| > 0
    ensures StepOver(ChainCheck, ChainFindings(ss)) ==
      if exists i :: 0 <= i < |ss| && !ss[i].facts.chainVerified then Step(ChainCheck, Fail, ChainUnverified)
      else Step(ChainCheck, Pass, AllWell)
  {
    hide StepOver;
    var fs, bad := ChainFindings(ss), Finding(Fail, ChainUnverified);
    OneKind(ChainCheck, fs, bad);
    if i :| 0 <= i < |ss| && !ss[i].facts.chainVerified { assert fs[i] == bad; }
  }

  // ---------------------------------------------------------------- revocation

  predicate FoundGood(s: Signer) { s.revocation.Some? && s.revocation.value.determinate && !s.revocation.value.revoked }

  predicate FoundBad(s: Signer) { s.revocation.Some? && s.revocation.value.determinate && s.revocation.value.revoked }

  predicate SomeGood(ss: seq<Signer>) { exists i :: 0 <= i < |ss| && FoundGood(ss[i]) }

  predicate SomeBad(ss: seq<Signer>) { exists i :: 0 <= i < |ss| && FoundBad(ss[i]) }

  predicate SomeOpen(ss: seq<Signer>) { exists i :: 0 <= i < |ss| && !FoundGood(ss[i]) && !FoundBad(ss[i]) }

  lemma RevocationFindingMeans(s: Signer)
    ensures var r := RevocationFinding(s.revocation);
      && (FoundGood(s) <==> r.status == Pass) && (FoundBad(s) <==> r == Finding(Fail, IsRevoked))
      && (FoundBad(s) <==> r.status == Fail) && (r.status == Unknown <==> !FoundGood(s) && !FoundBad(s))
      && (s.revocation == None ==> r.cause == RevocationNotChecked)
      && (s.revocation.Some? && !s.revocation.value.determinate ==> r.cause == RevocationNotEstablished)
  {
  }

  /** One revoked signer fails the step; one whose status is open leaves it open, unless the
      signature did not hold and nobody was found good, when revocation was just not reached. */
  lemma RevocationStepExactly(out: Output)
    ensures var r, ss := RevocationStep(out), out.signers;
      && r.check == RevocationCheck
      && (|ss| == 0 ==> r == Step(RevocationCheck, Skipped, NoSigner))
      && (|ss| > 0 ==>
        && (r.status == Fail <==> SomeBad(ss))
        && (r.status == Fail ==> r.cause == IsRevoked)
        && (r.status == Unknown <==> SomeOpen(ss) && !SomeBad(ss) && (out.valid || SomeGood(ss)))
        && (r == Step(RevocationCheck, Skipped, NotReached) <==>
          SomeOpen(ss) && !SomeBad(ss) && !out.valid && !SomeGood(ss))
        && (r == Step(RevocationCheck, Pass, AllWell) <==> !SomeOpen(ss) && !SomeBad(ss)))
  {
    var ss, fs := out.signers, RevocationFindings(out.signers);
    Meanings(ss);
    hide RevocationFinding;
    MergedByRank(RevocationCheck, fs);
    if !SomeOpen(ss) && !SomeBad(ss) { AllPassing(RevocationCheck, fs); }
    if SomeBad(ss) { RevokedSpeaks(out); }
    hide Merged, RevocationFindings;
  }

  lemma Meanings(ss: seq<Signer>)
    ensures forall i :: 0 <= i < |ss| ==>
      var st := RevocationFindings(ss)[i].status;
      && st != Skipped && st != Warn && (st == Pass <==> FoundGood(ss[i])) && (st == Fail <==> FoundBad(ss[i]))
    ensures SomeGood(ss) <==> exists s :: s in ss && RevocationFinding(s.revocation).status == Pass
  {
    forall i | 0 <= i < |ss|
      ensures var st := RevocationFindings(ss)[i].status;
        && st != Skipped && st != Warn && (st == Pass <==> FoundGood(ss[i])) && (st == Fail <==> FoundBad(ss[i]))
    {
      RevocationFindingMeans(ss[i]);
    }
    if s :| s in ss && RevocationFinding(s.revocation).status == Pass {
      var i :| 0 <= i < |ss| && ss[i] == s;
      RevocationFindingMeans(s);
    }
    if i :| 0 <= i < |ss| && FoundGood(ss[i]) { assert ss[i] in ss; }
  }

  lemma RevokedSpeaks(out: Output)
    requires SomeBad(out.signers)
    ensures RevocationStep(out) == Step(RevocationCheck, Fail, IsRevoked)
  {
    var ss, fs := out.signers, RevocationFindings(out.signers);
    Meanings(ss);
    MergedIsWorst(Step(RevocationCheck, Pass, AllWell), fs);
    hide Merged;
    var i :| 0 <= i < |ss| && FoundBad(ss[i]);
    assert fs[i].status == Fail;
    RevocationCauses(ss);
  }

  lemma RevocationCauses(ss: seq<Signer>)
    ensures forall i :: 0 <= i < |ss| && RevocationFindings(ss)[i].status == Fail ==>
      RevocationFindings(ss)[i].cause == IsRevoked
  {
  }

  /** An open revocation step says of the first open signer whether it was asked about at all. */
  lemma RevocationStepBlames(out: Output, i: nat)
    requires var ss := out.signers;
      && i < |ss| && !FoundGood(ss[i]) && !SomeBad(ss) && (out.valid || SomeGood(ss))
      && forall j :: 0 <= j < i ==> FoundGood(ss[j])
    ensures RevocationStep(out).cause ==
      if out.signers[i].revocation == None then RevocationNotChecked else RevocationNotEstablished
  {
    var ss, fs := out.signers, RevocationFindings(out.signers);
    Meanings(ss);
    MergedByRank(RevocationCheck, fs);
    RevocationFindingMeans(ss[i]);
    FirstSpeaks(RevocationCheck, fs, i);
    hide Merged;
    RevocationStepExactly(out);
  }

  // ---------------------------------------------------------------- the diagnosis

  /** Six steps, in this order, and the first of them is the signature's own. */
  lemma DiagnosisExactly(out: Output, checkTime: bool, verifyChain: bool, now: Time)
    ensures var d := Diagnosis(out, checkTime, verifyChain, now);
      && |d| == 6 && d[0].check == SignatureCheck && d[1].check == TimeCheck && d[2].check == CompleteCheck
      && d[3].check == AnchorCheck && d[4].check == ChainCheck && d[5].check == RevocationCheck
      && (out.valid <==> d[0].status == Pass) && (!out.valid <==> d[0].status == Fail)
      && d[0].cause == (if out.valid then AllWell else NotVerified)
      && (|out.signers| == 0 ==>
        d[1..4] == [Step(TimeCheck, Skipped, NoSigner), Step(CompleteCheck, Skipped, NoSigner),
                    Step(AnchorCheck, Skipped, NoSigner)])
      && (|out.signers| == 0 ==> d[4] == Step(ChainCheck, Skipped, if verifyChain then NoSigner else ChainNotChecked))
  {
    MergedIsWorst(Step(TimeCheck, Pass, AllWell), TimeFindings(out.signers, checkTime, now));
    MergedIsWorst(Step(CompleteCheck, Pass, AllWell), CompleteFindings(out.signers));
    MergedIsWorst(Step(AnchorCheck, Pass, AllWell), AnchorFindings(out.signers));
    MergedIsWorst(Step(ChainCheck, Pass, AllWell), ChainFindings(out.signers));
    RevocationStepExactly(out);
    hide Merged, RevocationStep;
  }
}
