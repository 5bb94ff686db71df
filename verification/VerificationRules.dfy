/** When the pipeline overrides the library, and what the report says of every signer. */
module VerificationRules {
  import opened Prelude
  import opened Diagnoses
  import opened Verification

  /** Everything but the library's own time check speaks for this signer. */
  predicate SpeaksFor(f: Facts, now: Time) {
    && f.chainVerified && f.anchored
    && f.notBefore.Some? && f.notAfter.Some? && f.notBefore.value <= now && now <= f.notAfter.value
  }

  /** The library is overruled only when it found no anchor while checking chains and time, and
      every signer and the plain signature check say otherwise. */
  lemma OverriddenExactly(lib: Library, req: Request, mathHolds: bool)
    ensures Overridden(lib, req, mathHolds) <==>
      && !lib.valid && (lib.failure == Soft(true) || lib.failure == Hard(true)) && req.verifyChain && req.checkTime
      && |lib.signers| > 0 && mathHolds
      && forall i :: 0 <= i < |lib.signers| ==> SpeaksFor(lib.signers[i], req.confirmedAt)
  {
    forall i | 0 <= i < |lib.signers| ensures lib.signers[i] in lib.signers {}
  }

  predicate SaidRevoked(f: Facts, a: Answer) {
    f.hasPem && a.Answered? && a.revocation.determinate && a.revocation.revoked
  }

  predicate Held(lib: Library, req: Request, mathHolds: bool) { lib.valid || Overridden(lib, req, mathHolds) }

  /** A signer's revocation is looked up only where the signature held, the caller asked and the
      certificate is at hand; a lookup that failed leaves it open, and one that says revoked takes
      the signer's own validity away. */
  lemma SignerReported(lib: Library, req: Request, mathHolds: bool, answers: nat -> Answer, i: nat)
    requires i < |lib.signers| && Reported(lib, req, mathHolds, answers).Some?
    ensures var r := Reported(lib, req, mathHolds, answers).value;
      |r.signers| == |lib.signers| && r.signers[i].facts == lib.signers[i]
    ensures var s, a := Reported(lib, req, mathHolds, answers).value.signers[i], answers(i);
      var asked := Held(lib, req, mathHolds) && req.checkRevocation;
      && (s.valid <==> Held(lib, req, mathHolds) && !(asked && SaidRevoked(lib.signers[i], a)))
      && (s.revocation == None <==> !asked || !lib.signers[i].hasPem)
      && (s.revocation.Some? ==> s.revocation.value == if a.Answered? then a.revocation else Revocation(false, false))
  {
    hide Diagnosis, VerdictOf, Overridden;
  }

  /** There is a report unless the library failed for reasons of its own and was not overruled;
      its steps are the diagnosis, at the time of the report, of a signature that holds exactly
      when it held before, names somebody, and nobody was said to be revoked. */
  lemma ReportExactly(lib: Library, req: Request, mathHolds: bool, answers: nat -> Answer)
    ensures var r := Reported(lib, req, mathHolds, answers);
      && (r.None? <==> lib.failure.Hard? && !Overridden(lib, req, mathHolds))
      && (r.Some? ==>
        exists valid ::
          && r.value.steps == Diagnosis(Output(valid, r.value.signers), req.checkTime, req.verifyChain, req.reportedAt)
          && r.value.verdict == VerdictOf(valid, r.value.steps)
          && (valid <==>
            && Held(lib, req, mathHolds) && |lib.signers| > 0
            && (req.checkRevocation ==>
              forall i :: 0 <= i < |lib.signers| ==> !SaidRevoked(lib.signers[i], answers(i)))))
  {
    hide Diagnosis, VerdictOf, Overridden;
    var out := Checked(lib, req, mathHolds, answers);
    assert out == Output(out.valid, out.signers);
  }
}
