# Qoltanba, verified

A model of the signature service's hard parts and proofs about it. Concurrent
components are transition systems over every interleaving of their steps; stores and
caches are classes whose methods are proved against value-level functions; codecs are
functions with their inverses.

* `Der`, `Cms`, `Ltv`, `LtvPreservation`, `LtvRoundTrip`, `LtvExample`, `LtvWire`,
  `LtvOctets`, `LtvReader`: the CAdES-LT rewriter. A reader and printer of DER elements, the SignedData and SignerInfo shapes of RFC 5652,
  and the certificate-values and revocation-values attributes of RFC 5126, up to the
  round trip, the preservation of signed octets, idempotence and the octets themselves.
* `Framing`, `FramingRules`, `Supervisor`, `SupervisorSafety`, `SupervisorPipes`,
  `SupervisorRules`, `SupervisorProgress`: the out-of-process crypto supervisor over its
  length-prefixed pipes.
* `JobStore`, `JobManager`, `JobSafety`, `JobTerminal`, `JobRules`: asynchronous jobs over an
  atomic store.
* `Idempotency`, `IdempotencyRuns`, `IdempotencyClock`: the single-flight LRU cache, its
  runs, and what they mean in clock time.
* `CrlCache`, `OcspCache`, `Validation`, and `CrlRules`, `OcspRules`, `ValidationRules` in
  `CacheRules.dfy`: revocation lists, OCSP answers, and the check that uses them.
* `Audit`, `AuditRules`: the hash-chained journal.
* `Multisign`, `MultisignSafety`, `MultisignFit`, `MultisignRules`: multi-signature rounds.
* `Login`, `LoginSafety`, `LoginRules`: challenge, authorization code and token.
* `Batch`, `BatchRules`, `Registry`, `RegistryRules`: the bounded parallel batch and the
  register over it.
* `Diagnoses`, `DiagnosisRules`, `Verification`, `VerificationRules`: from the
  library's answer to a verdict.

The modules named `...Rules` say what single operations do without the functions the
methods are proved against: in the fields of the data, in clock time, or in octets.

Where the code does not keep what its comments say, the model follows the code, a lemma
shows the failing case, and another says exactly when the promise holds:

* a failed sync followed by another append breaks the journal (`Audit.RunIntact`);
* line breaks in a field let one hash vouch for two entries (`Audit.MisreadExactly`,
  `Audit.TamperExactly`);
* a copy taken earlier overwrites a terminal job record, and a canceled job can be
  started (`JobTerminal.TerminalExactly`);
* a seed container that names one person twice can complete a round
  (`MultisignSafety.RoundOfSeed` beside `MultisignSafety.CompletionIsSound`);
* taking the first open requirement can refuse signers who could have been placed
  (`MultisignFit.FirstFitExactly`);
* a vertical bar lets one signer be taken for another (`Multisign.TakenForAnother`);
* an OCSP status of unknown is told from the cache as determined
  (`Validation.RetoldFaithfully`), and a revocation list delivered past its next update
  counts as current (`CrlCache.CurrentThoughExpired`);
* an unknown certificate window hides a broken chain behind "indeterminate"
  (`Verification.VerdictExactly`);
* an attribute with a third field is not kept verbatim (`Cms.AttributeKept`), and octets
  after the last element of a body or signer are copied along
  (`LtvPreservation.PrefixExact`, `LtvPreservation.SignerExact`);
* a second Close returns at once (`SupervisorSafety.LateCloseSafe`).

`dafny verify dfyconfig.toml` checks the whole project.

## Model

| member | source | states |
|---|---|---|
| `Der.EncodeReads` | internal/cms/ltv.go:202-212 | an element printed with a low tag number and fewer than 2^31 content octets is read back whole, whatever follows it |
| `Der.EncodeTooLarge` | internal/cms/ltv.go:202-212 | from 2^31 content octets on, what is printed is refused by the reader |
| `Der.RawCanonical` | internal/cms/ltv.go:202-212 | the reader accepts one spelling only: printing what was read gives back the octets that were read |
| `Der.RawLocal` | internal/cms/ltv.go:339-352 | reading an element depends on no octet after it |
| `Der.Base128Reads` | internal/cms/ltv.go:202-212 | base-128 tag and arc numbers below 2^31 survive printing and reading |
| `Der.SplitDer` | internal/cms/ltv.go:339-352 | the splitting loop yields exactly the elements in front, and stops at the first octets that are not an element |
| `Der.SplitConcat` | internal/cms/ltv.go:339-352 | splitting undoes concatenation of elements, whatever follows them |
| `Der.SplitsIff` | internal/cms/ltv.go:339-352 | a byte string splits without remainder if and only if it is a concatenation of elements |
| `Cms.OidCanonical` | internal/cms/cms.go:93-96 | decoding and encoding an object identifier gives back its octets |
| `Cms.OidReads` | internal/cms/cms.go:93-96 | encoding and decoding an object identifier gives it back, for every identifier that fits the wire form |
| `Cms.AttributeReads` | internal/cms/ltv.go:186-197 | an encoded attribute is read back, whatever follows it |
| `Cms.AttributeKept` | internal/cms/ltv.go:157-165 | re-encoding a parsed attribute is the identity if and only if the element had no third field |
| `Cms.ParseAttributeList` | internal/cms/ltv.go:186-197 | the parsing loop reads the whole list or refuses it |
| `Cms.AttributesRead` | internal/cms/ltv.go:186-197 | a list of encoded attributes is read back as that list |
| `Cms.SkipReplace` | internal/cms/cms.go:64-91 | the record fields in front are whole elements; what follows them can be replaced without changing how they are read |
| `Ltv.FindAttribute` | internal/cms/ltv.go:268-275 | the search loop answers whether some attribute has the type |
| `Ltv.AddMissingAttributes` | internal/cms/ltv.go:144-155 | the loop appends, in order, exactly the attributes whose type was missing |
| `Ltv.RewriteSigner` | internal/cms/ltv.go:126-173 | the signer is rebuilt from its leading elements and its extended attribute list, or refused where the code refuses |
| `Ltv.AddLtvToContainer` | internal/cms/ltv.go:57-122 | the container is rebuilt signer by signer, or refused where the code refuses; its exact octets, types and refusals are LtvWire.AddLtvOctets and LtvPreservation.AddLtvExactly |
| `LtvPreservation.ReadableIff` | internal/cms/ltv.go:57-122 | a rewritten container can be read again if and only if it stays below the length limit of the reader |
| `LtvPreservation.PrefixExact` | internal/cms/ltv.go:73-110 | the octets copied in front of the signer set are exactly the elements before it if and only if the body splits without remainder |
| `LtvPreservation.AddLtvPreserves` | internal/cms/ltv.go:73-173 | for every clean container: same octets in front of the signer set, same number of signers, same signed part in each, old attributes first and in order |
| `LtvPreservation.AddLtvIdempotent` | internal/cms/ltv.go:144-172 | embedding the same evidence a second time changes no octet |
| `LtvPreservation.SignerExact` | internal/cms/ltv.go:126-173 | the octets copied in front of a signer's new attributes are exactly its elements before the old ones if and only if the signer splits without remainder |
| `LtvPreservation.AttributesKeptVerbatim` | internal/cms/ltv.go:186-197 | each old attribute stands at its old place in the new list, octet for octet if and only if it had just two fields |
| `LtvPreservation.AddLtvKeepsElements` | internal/cms/ltv.go:57-173 | in every signer of a rewritten container each unsigned attribute element is where it was, octet for octet if and only if it had just two fields |
| `LtvRoundTrip.GatherEvidence` | internal/cms/ltv.go:280-322 | the two reading loops collect every signer's lists, signer by signer |
| `LtvRoundTrip.AddLtvSucceeds` | internal/cms/ltv.go:57-122 | embedding never refuses a well-formed container |
| `LtvRoundTrip.RoundTrip` | internal/cms/ltv.go:57-352 | reading a rewritten container gives, for each signer, what it carried followed by the evidence kinds it lacked |
| `LtvRoundTrip.RoundTripUnannotated` | internal/cms/ltv.go:280-352 | for n signers none of which was annotated, reading back gives exactly n consecutive copies of the evidence, in order |
| `LtvExample.ContainerWellFormed` | internal/cms/cms.go:59-96 | a small container with one signer meets every hypothesis: it is well formed and clean |
| `LtvExample.ContainerRoundTrip` | internal/cms/ltv.go:57-352 | evidence can be embedded in it below the length limit and is read back once |
| `Framing.StreamReads` | internal/cryptoworker/protocol.go:116-152 | reading what was written gives back exactly the frames, in order |
| `Framing.TornStream` | internal/cryptoworker/protocol.go:135-152 | a stream cut anywhere delivers a prefix of the frames and then stops: no torn frame is delivered or taken for another |
| `Framing.Pipe.Write` | internal/cryptoworker/protocol.go:116-133 | a frame goes out as header and payload; an oversized one writes nothing |
| `Framing.Pipe.Read` | internal/cryptoworker/protocol.go:135-152 | one frame is taken off the front, or the stream is reported ended or torn |
| `Framing.Serve` | internal/cryptoworker/server.go:27-41 | the child loop answers each request it reads before reading the next, and stops at the end, at a bad frame, at a frame that is no request or at an answer too large |
| `Framing.ServePairs` | internal/cryptoworker/server.go:27-41 | requests and responses pair up one to one, in order, up to the first request that cannot be answered, and nothing is written after it |
| `SupervisorPipes.WriteAppends` | internal/cryptoworker/protocol.go:116-133 | writing a message appends its frame to the bytes of the pipe |
| `SupervisorPipes.ReadTakesFirst` | internal/cryptoworker/protocol.go:135-152 | reading a frame off the bytes of a pipe takes the first message and leaves the rest |
| `SupervisorPipes.NextFrameIsOurs` | internal/cryptoworker/client.go:525-556 | in every reachable state the bytes a caller is about to read are one frame, the answer to its own request, and nothing more |
| `SupervisorPipes.NextRequestIsCurrent` | internal/cryptoworker/server.go:27-41 | the bytes a child is about to read are one frame, the request of the slot that holds it |
| `SupervisorSafety.StepInv` | internal/cryptoworker/client.go:154-482 | every enabled step of callers, children, warmer and Close keeps the invariant |
| `SupervisorSafety.Pairing` | internal/cryptoworker/client.go:374-428 | in every reachable state each answered attempt holds the answer its own child gave to that very request; a resting child has both pipes empty |
| `SupervisorSafety.RetryBound` | internal/cryptoworker/client.go:351-370 | a call makes at most two attempts, repeats only a crash, and ends after a single attempt only if that one did not crash |
| `SupervisorSafety.RetirementBudget` | internal/cryptoworker/client.go:434-447 | no child answers more than its operation budget, nor anything after a revoked verdict unless configured to |
| `SupervisorSafety.OneOwner` | internal/cryptoworker/client.go:192-249 | a child is alive if and only if one slot, the standby channel or the warmer holds it, and never two of them |
| `SupervisorSafety.LiveBound` | internal/cryptoworker/client.go:192-249 | live children never exceed slots plus standby places |
| `SupervisorSafety.CloseKillsAll` | internal/cryptoworker/client.go:319-345 | once the Close that began the shutdown has returned every child ever started is killed |
| `SupervisorSafety.LateCloseReturnsEarly` | internal/cryptoworker/client.go:319-324 | a further Close can return while a child is alive |
| `SupervisorSafety.LateCloseSafe` | internal/cryptoworker/client.go:319-324 | it leaves live children behind only while the first Close is at work |
| `SupervisorSafety.NoCallAfterKill` | internal/cryptoworker/client.go:525-556 | a request is only written to a live child held by that caller's slot |
| `SupervisorSafety.KilledIsFrozen` | internal/cryptoworker/client.go:558-567 | no step changes a killed child |
| `JobStore.MemStore.Create` | internal/jobs/memstore.go:22-30 | a record is added under a new id and refused under one in use |
| `JobStore.MemStore.Recover` | internal/jobs/memstore.go:59-72 | interrupted jobs become queued, nothing else changes, and exactly the non-terminal ids are returned |
| `JobStore.MemStore.Reap` | internal/jobs/memstore.go:74-85 | exactly the terminal records past their expiry go, and the count says how many |
| `JobSafety.StepInv` | internal/jobs/manager.go:129-402 | every step of submit, cancel, worker, reaper, requeue, shutdown and restart keeps the invariant |
| `JobSafety.Records` | internal/jobs/manager.go:310-363 | in every reachable state a non-terminal record holds its original request and no expiry, a terminal one no request and the right expiry; workers execute what was submitted |
| `JobSafety.ReapExact` | internal/jobs/memstore.go:74-85 | reaping removes a job if and only if it is finished and its retention has run out |
| `JobSafety.ExactlyOneToken` | internal/jobs/manager.go:213-239 | while the manager is up every queued record has a token in the queue, the requeue list, a pending submit or a worker |
| `JobSafety.AtMostOneToken` | internal/jobs/manager.go:297-330 | no id ever has two tokens |
| `JobSafety.RunsOnce` | internal/jobs/manager.go:297-330 | each job is executed at most once per process life |
| `JobTerminal.TerminalExactly` | internal/jobs/manager.go:268-363 | a terminal record can change, other than by the reaper, if and only if a worker or a cancel holds a copy of it or its submit is still deciding |
| `JobTerminal.CopiedChanges` | internal/jobs/manager.go:310-325 | a worker that has read a job starts it although it was canceled since: the record goes back to running and the job is executed |
| `JobTerminal.ExecutingChanges` | internal/jobs/manager.go:343-359 | a worker executing a job saves its outcome over any terminal record |
| `JobTerminal.FinishedChanges` | internal/jobs/manager.go:343-359 | a worker that has finished a job overwrites a record canceled meanwhile |
| `JobTerminal.CancelChanges` | internal/jobs/manager.go:268-294 | a cancel that read the job before it ended stamps the record anew |
| `JobTerminal.RejectedOnceFull` | internal/jobs/manager.go:213-239 | a submit still deciding can find the queue full and delete the record, terminal or not |
| `JobTerminal.CanceledYetStartedExample` | internal/jobs/manager.go:310-325 | a canceled job about to be started anyway is a reachable state |
| `JobSafety.CancelIsOverwritten` | internal/jobs/manager.go:343-359 | from any state in which a job executes, canceling it and letting it finish leaves it succeeded |
| `JobSafety.ExecutingExample` | internal/jobs/manager.go:310-342 | a state in which that happens is reachable |
| `Idempotency.Cache.RemoveLocked` | internal/idempotency/cache.go:127-131 | an entry leaves map and list together |
| `Idempotency.Cache.EvictLocked` | internal/idempotency/cache.go:135-143 | the loop drops from the back of the list until the bound holds |
| `Idempotency.Cache.Enter` | internal/idempotency/cache.go:62-96 | the first critical section replays, joins a run in progress, or registers a new one |
| `Idempotency.Cache.Leave` | internal/idempotency/cache.go:97-117 | the second critical section records the outcome, a success to expire one lifetime from now, and drops failures |
| `IdempotencyRuns.Bounded` | internal/idempotency/cache.go:127-143 | map and list are in bijection and within the bound after every critical section of every run |
| `IdempotencyRuns.RerunOnlyWhenPushedOut` | internal/idempotency/cache.go:62-117 | if the work for a key starts again while an earlier run is unfinished or its success unexpired, at least max other distinct keys were used since |
| `IdempotencyRuns.RepliesAreGenuine` | internal/idempotency/cache.go:62-117 | every error-free replay returns what an earlier successful run of the same key produced |
| `IdempotencyRuns.FreshIsReplayed` | internal/idempotency/cache.go:62-117 | a success still cached and unexpired is replayed or waited for, never redone |
| `Audit.TextInjective` | internal/audit/log.go:172-178 | an entry with the text of one that has no line breaks has none either and agrees with it in every hashed field |
| `Audit.MisreadExactly` | internal/audit/log.go:172-178 | another entry with the same text exists if and only if some hashed field holds a line break |
| `Audit.TamperEvidence` | internal/audit/log.go:206-245 | two intact journals with the same head hash, one of them without line breaks, record the same facts from first to last, or exhibit a broken hash among their own entries |
| `Audit.TamperExactly` | internal/audit/log.go:206-245 | an intact journal is tamper evident if and only if no hashed field of it holds a line break |
| `Audit.Verify` | internal/audit/log.go:206-250 | the walk reports the length of the longest intact prefix, intact if and only if that is everything, and otherwise the break right after it |
| `Audit.ReportUnique` | internal/audit/log.go:206-250 | only one report fits a journal |
| `Audit.Tail` | internal/audit/log.go:255-287 | the resume loop finds the last record, and refuses if and only if some line cannot be read |
| `Audit.Open` | internal/audit/log.go:93-109 | a journal is opened at the end of its file, a missing one at the start of a new chain, and one with an unreadable line is refused |
| `Audit.OpenIsReopen` | internal/audit/log.go:93-109 | opening the file a run left behind is the reopening of that run |
| `Audit.Log.Append` | internal/audit/log.go:112-149 | the file gains the sealed entry when it was written, and memory moves on only when it was durable |
| `Audit.Log.Reopen` | internal/audit/log.go:93-109 | reopening keeps the file and puts memory at its end |
| `Audit.StepBreaks` | internal/audit/log.go:137-147 | writing onto a broken chain, or after a failed sync, leaves the chain broken |
| `Audit.RunIntact` | internal/audit/log.go:112-149 | over every run of appends and reopenings the journal is intact if and only if no line followed a failed sync before a reopening |
| `Audit.RunVerifies` | internal/audit/log.go:206-245 | verification passes exactly those runs, with the entry count and head hash that stand in memory |
| `Multisign.IdentityTellsApart` | internal/multisign/multisign.go:418-423 | two signers have one identity if and only if their IIN agree and, without one, their joined BIN and name |
| `Multisign.TakenForAnother` | internal/multisign/multisign.go:418-423 | a signer without IIN can be taken for somebody else if and only if a vertical bar occurs in BIN or name |
| `Multisign.Record` | internal/multisign/multisign.go:379-395 | the scan takes the first open requirement the signer meets, or none |
| `Multisign.SeedFrom` | internal/multisign/multisign.go:253-259 | every signer of the seed container is recorded, one by one |
| `Multisign.AbsorbAll` | internal/multisign/multisign.go:309-324 | the submission loop skips the recorded, records the invited and refuses the rest with the right error |
| `Multisign.Service.Create` | internal/multisign/multisign.go:217-270 | the checks in order, the seeded signatures, and the stored session |
| `Multisign.Service.Get` | internal/multisign/multisign.go:273-283 | a pending session whose deadline is not after now is stored and answered as expired, any other session unchanged |
| `Multisign.Service.Submit` | internal/multisign/multisign.go:288-337 | the new stored session or the error, for every outcome |
| `MultisignSafety.AbsorbedKeeps` | internal/multisign/multisign.go:309-324 | an accepted submission only appends, keeps requirements singly and rightly fulfilled, and adds exactly the people of the container |
| `MultisignSafety.SeededKeeps` | internal/multisign/multisign.go:253-259 | seeding records the people of the container in order, each requirement at most once |
| `MultisignSafety.CompletionIsSound` | internal/multisign/multisign.go:146-151 | in every run a complete session whose seed named nobody twice has a different matching person for every requirement, or enough different people |
| `MultisignSafety.CountRound` | internal/multisign/multisign.go:253-263 | a counting round opened with a seed is complete if and only if the seed holds enough signatures, and rightly so if and only if it holds enough people |
| `MultisignSafety.RoundOfSeed` | internal/multisign/multisign.go:253-263 | a round for as many signatures as a seed holds completes at once, rightly if and only if the seed names nobody twice: so no weaker condition on the seed makes completion sound |
| `MultisignSafety.RecordedPeople` | internal/multisign/multisign.go:341-352 | the stored container names exactly the recorded people; nobody is recorded twice if and only if the seed named nobody twice |
| `MultisignSafety.NothingIsLost` | internal/multisign/multisign.go:288-337 | over any further run signatures are only added, in order, and a closed session is never changed |
| `MultisignSafety.CanceledIsGone` | internal/multisign/multisign.go:426 | over any further run nothing is stored under the identifier of a canceled session |
| `MultisignSafety.RefusedLeavesNoTrace` | internal/multisign/store.go:35-60 | a refused submission leaves the store as it was but for a deadline that had passed |
| `MultisignFit.SkipsRecorded` | internal/multisign/multisign.go:309-324 | a submission looks only at the signers not recorded yet, each once |
| `MultisignFit.AcceptedIffPlaceable` | internal/multisign/multisign.go:379-395 | on a safe list of requirements the newcomers of any container are accepted if and only if they can be placed on different open requirements |
| `MultisignFit.FirstFitMisses` | internal/multisign/multisign.go:388-393 | on any other list the very first container of a session can name people who could all be placed and be refused |
| `MultisignFit.FirstFitExactly` | internal/multisign/multisign.go:388-393 | first fit accepts all newcomers who can be placed, in every session or just in every new one, if and only if the list of requirements is safe, which is decided from the list alone |
| `MultisignFit.SubmitExactly` | internal/multisign/multisign.go:288-337 | on a safe list a submission succeeds if and only if the session waits, the container verifies, nobody recorded is missing and the newcomers, at least one, can be placed |
| `Login.ChallengeStore.Consume` | internal/challenge/store.go:96-108 | a challenge is handed out if and only if it is there and unused, and is used from then on |
| `Login.ChallengeStore.Reap` | internal/challenge/store.go:110-121 | exactly the expired challenges go, and the count says how many |
| `Login.CodeStore.Take` | internal/oidc/authcode.go:137-149 | a code is gone once presented, and is good if and only if it was there and unexpired |
| `Login.CodeStore.Reap` | internal/oidc/authcode.go:151-159 | exactly the expired codes go |
| `Login.Provider.VerifySignature` | internal/oidc/oidc.go:176-224 | an attempt spends its challenge whatever comes of it, and names a person if and only if the challenge was there and unused, it is not yet past its expiry, the signature is not empty and valid with a subject, and, where OCSP is demanded, the certificate was looked up and not revoked |
| `Login.Provider.CompleteAuthorization` | internal/oidc/authcode.go:197-231 | a code bound to client, redirect address and PKCE challenge is stored if and only if the request is valid and the challenge was answered, even when the redirect address then fails to parse; an invalid request spends no challenge |
| `Login.Provider.Exchange` | internal/oidc/authcode.go:246-267 | an authenticated request spends the code it names, and gets its claims and nonce if and only if the code is live and every binding holds |
| `LoginSafety.StepInv` | internal/oidc/authcode.go:168-267 | every step of every interleaving of both grants keeps the invariant |
| `LoginSafety.OneIssuancePerChallenge` | internal/oidc/oidc.go:158-224 | in every run tokens are issued at most once for a challenge, over both grants |
| `LoginSafety.OneUsePerChallenge` | internal/oidc/oidc.go:176-184 | a challenge feeds at most one verification or authorization |
| `LoginSafety.ExchangeIsBacked` | internal/oidc/authcode.go:246-279 | a successful exchange goes back to an earlier authorization of its own with the same client, redirect address, claims and nonce, in time; a public client presented the S256 preimage, a confidential one its secret |
| `Batch.StepInv` | internal/core/batch.go:106-181 | every step of dispatcher, tasks and cancellation keeps the invariant |
| `Batch.BoundedConcurrency` | internal/core/batch.go:138-150 | at every moment at most the permitted number of items run, and those started are the first ones |
| `Batch.BatchConserves` | internal/core/batch.go:106-181 | however scheduled, a finished batch ran a prefix, stored each outcome in its own slot, streamed each once; succeeded + failed + skipped is the total, and items are skipped only after cancellation or a fail-fast failure |
| `Registry.FirstProblemStep` | internal/core/registry.go:125-132 | the loop names the first failing or undetermined check |
| `Registry.FillRow` | internal/core/registry.go:104-121 | the row takes verdict, summary, document, all signers, the first known signing time, and a reason unless valid |
| `Registry.Summarise` | internal/core/registry.go:75-100 | one right row per result, and each counter is the number of its kind; valid + invalid + indeterminate + failed is the total |
| `Registry.FailedRows` | internal/core/registry.go:80-86 | the failed rows are exactly the items without an output |
| `Registry.ReasonNamed` | internal/core/registry.go:118-132 | when the signature held, the verdict is valid if and only if no check is to blame |
| `Registry.RegisterConserves` | internal/core/registry.go:65-101 | however scheduled, rows with a verdict are the batch's successes, failed rows its failures and omissions |
| `Diagnoses.MergedIsWorst` | internal/core/explain.go:257-263 | a step ends with the greatest severity of all signers and the text of the first signer that bad |
| `Diagnoses.MergedOrderFree` | internal/core/explain.go:257-263 | the order of the signers does not change a step's status |
| `Diagnoses.MergedStatus` | internal/core/explain.go:29-42 | a step fails if and only if some signer fails it, and is unknown if and only if some signer is and none fails |
| `Diagnoses.BuildTimeStep` | internal/core/explain.go:121-149 | the loop merges every signer's validity window |
| `Diagnoses.BuildCompleteStep` | internal/core/explain.go:154-169 | the loop merges every signer's chain completeness |
| `Diagnoses.BuildAnchorStep` | internal/core/explain.go:174-189 | the loop merges every signer's trust anchor |
| `Diagnoses.BuildChainStep` | internal/core/explain.go:194-215 | the loop merges every signer's chain signatures, when they were checked |
| `Diagnoses.BuildRevocationStep` | internal/core/explain.go:223-253 | the loop merges every signer's revocation status, and skips it when it was never reached |
| `Diagnoses.BuildDiagnosis` | internal/core/explain.go:78-90 | the six steps in order |
| `Diagnoses.VerdictFrom` | internal/core/report.go:127-140 | the first failing or undetermined step decides |
| `Verification.Confirms` | internal/core/service.go:1010-1030 | the override holds if and only if everybody is verified, anchored and in time, somebody signed and the mathematics hold |
| `Verification.CheckRevocation` | internal/core/service.go:424-470 | every signer gets its answer, and one found revoked spoils the whole |
| `Verification.Verify` | internal/core/service.go:347-413 | the pipeline from the library's answer to the report |
| `Verification.VerdictExactly` | internal/core/report.go:127-140 | each verdict by its exact condition on the signers |
| `Verification.ValidExactly` | internal/core/service.go:347-413 | a report says valid if and only if the signature held, somebody signed, revocation was asked for, and every signer has a determinate not-revoked answer, a known window, is inside it when time was checked and has a verified chain when chains were |
| `Verification.RevokedIsInvalid` | internal/core/service.go:452-458 | a signer found revoked always makes the report invalid |
| `Verification.FailingStepHidden` | internal/core/report.go:131-138 | a failing step alone does not: an unknown window before it makes the report indeterminate |
| `CrlCache.LeastRecent` | internal/crl/crl.go:286-299 | the scan finds a least recently used entry other than the one to keep |
| `CrlCache.Evict` | internal/crl/crl.go:284-307 | what is left fits the cap or is only the kept entry; victims were used no later than survivors, and the last one had to go |
| `CrlCache.Cache.Store` | internal/crl/crl.go:253-280 | the new list is held, the total is the sum of the sizes, within the cap unless it alone remains |
| `CrlCache.Cache.Get` | internal/crl/crl.go:209-250 | a held list not past its next update, else the delivery, else the held list as stale; and what that leaves in the cache |
| `CrlCache.AnswerGenuine` | internal/crl/crl.go:209-250 | the list handed out was just fetched or is the last one stored, and is current if and only if just fetched or not past its next update |
| `CrlCache.CurrentThoughExpired` | internal/crl/crl.go:232-239 | a list past its next update is handed out as current if and only if it was delivered so |
| `CrlCache.Cache.First` | internal/crl/crl.go:197-204 | the loop answers for the first key that has a list, and only that key leaves a trace |
| `CrlCache.FirstAnswerIsFirst` | internal/crl/crl.go:197-204 | no earlier key is held or delivered, and nothing is found if and only if no key is |
| `CrlCache.Cache.CrlFor` | internal/crl/crl.go:154-194 | the base is the first found; the delta is the first found among what is held after that; the result is their resolution |
| `CrlCache.ReliableExactly` | internal/crl/crl.go:154-194 | reliable if and only if the base is current and a delta that is named was found, is current and agrees; each reason given if and only if it holds |
| `CrlCache.Cache.WarmStart` | internal/crl/crl.go:322-346 | exactly the lists that still parse are adopted and the total stays the sum of the sizes |
| `OcspCache.Oldest` | internal/ocspcache/cache.go:156-163 | the scan finds the oldest entry |
| `OcspCache.Purge` | internal/ocspcache/cache.go:151-155 | exactly the expired entries go |
| `OcspCache.Evict` | internal/ocspcache/cache.go:147-166 | nothing goes while there is room; otherwise the expired, then the oldest, and no more than needed |
| `OcspCache.Cache.Lookup` | internal/ocspcache/cache.go:97-118 | a hit is the last accepted answer for that certificate and responder, within its lifetime and before nextUpdate |
| `OcspCache.Cache.Store` | internal/ocspcache/cache.go:123-143 | an answer is accepted unless stale on arrival, and what is accepted is there afterwards within the bound |
| `OcspCache.NewestStays` | internal/ocspcache/cache.go:147-166 | eviction never takes the entry just stored |
| `Validation.RetoldFaithfully` | internal/core/service.go:801-820 | a clean answer told from the cache equals the live one if and only if the driver had determined something |
| `Validation.UnknownRetoldAsGood` | internal/core/service.go:783-806 | an unknown status is told again as determined and not revoked |
| `Validation.Validator.Validate` | internal/core/service.go:715-797 | a hit repeats the last accepted driver answer; a miss asks the driver and keeps a clean answer that is not already stale |
| `Der.EncodeForm` | internal/cms/ltv.go:202-212 | an element is one identifier octet with class, form and tag, its minimal length octets, and its contents |
| `LtvWire.AttributeOctets` | internal/cms/ltv.go:235-266 | the revocation attribute is 30, length, 06 0B 2A 86 48 86 F7 0D 01 09 10 02 18, and a set with the lists under A0 and the responses under A1; the certificate attribute the same with 17 for 18 and the certificates |
| `LtvWire.AddLtvOctets` | internal/cms/ltv.go:57-173 | in octets: every signer of a rewritten container carries, after the attribute elements it had, exactly the elements of the kinds it lacked |
| `LtvOctets.OctetForOctet` | internal/cms/ltv.go:57-352 | a container given as literal octets is rewritten to another given as literal octets, and the three items are read back from that |
| `LtvPreservation.AddLtvExactly` | internal/cms/ltv.go:57-122 | embedding succeeds if and only if there is something to embed, the container is a SignedData by its content type, its body has four elements, the last with a signer, and every signer can be rewritten |
| `LtvReader.AttributeMeans` | internal/cms/ltv.go:303-317 | only the types id-aa-ets-certValues and id-aa-ets-revocationValues carry evidence, the first just certificates |
| `LtvReader.RevocationMeans` | internal/cms/ltv.go:305-313 | lists are read under tag 0 and responses under tag 1, one sequence further in |
| `LtvReader.GatheredExactly` | internal/cms/ltv.go:295-319 | evidence is gathered if and only if the attributes of every signer can be read, and then it is all they carry, signer by signer |
| `LtvReader.OpeningRefused` | internal/cms/ltv.go:57-77 | what either direction refuses on the way to the SignedData, and with which error |
| `LtvReader.BodyRefused` | internal/cms/ltv.go:77-92 | a body with fewer than four elements, or with no signer in the last, is refused as such |
| `FramingRules.FrameOctets` | internal/cryptoworker/protocol.go:116-131 | a frame is four octets of length, most significant first, and the payload |
| `FramingRules.FrameExample` | internal/cryptoworker/protocol.go:116-133 | two frames octet for octet |
| `FramingRules.ReadsExactly` | internal/cryptoworker/protocol.go:135-152 | a payload is delivered if and only if the stream begins with the one spelling of its frame |
| `FramingRules.RefusesExactly` | internal/cryptoworker/protocol.go:135-152 | the end, an announced length over 64 MiB and a frame cut short, each by its exact condition |
| `SupervisorRules.AnswerSettles` | internal/cryptoworker/client.go:413-447 | an answer settles the attempt; its child is killed if and only if the answer was undecodable, revoked, or a budget was reached, and else stays, counted |
| `SupervisorRules.LostChildDies` | internal/cryptoworker/client.go:397-401 | a lost attempt takes its child with it |
| `SupervisorRules.NoChildEndsCall` | internal/cryptoworker/client.go:386-393 | an attempt that gets no child ends its call |
| `SupervisorRules.ReleaseDecides` | internal/cryptoworker/client.go:360-370 | giving the slot back records the outcome, and the call tries again if and only if that was a crash of its first attempt |
| `SupervisorRules.FreshChild` | internal/cryptoworker/client.go:386-395 | an empty slot gets the oldest child on standby or a new one; neither has answered anything |
| `SupervisorRules.RetryAnswered` | internal/cryptoworker/client.go:351-370 | a run in which a crashed call is answered by the second attempt |
| `SupervisorProgress.SlotMovesOn` | internal/cryptoworker/client.go:374-428 | in every reachable state a call that holds a slot has a step to take, or waits for a child that has one or is gone |
| `SupervisorProgress.NobodyForgotten` | internal/cryptoworker/client.go:374-384 | a call under way holds exactly one slot |
| `SupervisorProgress.SlotComesBack` | internal/cryptoworker/client.go:374-428 | whatever the children do, a slot can be given back within three steps of its holder |
| `SupervisorProgress.WarmerMovesOn` | internal/cryptoworker/client.go:192-249 | the warmer always has its next step, and always has room for the child it holds |
| `SupervisorProgress.CloseMovesOn` | internal/cryptoworker/client.go:319-345 | a Close under way always has a step to take, or waits for a call that has |
| `JobRules.SubmitExactly` | internal/jobs/manager.go:213-239 | a submit stores the job as given, queued and stamped; it can then be queued if and only if there is room, and else rejected |
| `JobRules.CancelExactly` | internal/jobs/manager.go:268-286 | a cancel writes its copy back canceled, stamped, scrubbed and with its retention |
| `JobRules.PickExactly` | internal/jobs/manager.go:297-317 | a worker takes the head of the queue and runs it if and only if it is still there and queued |
| `JobRules.OutcomeExactly` | internal/jobs/manager.go:335-359 | a finished execution is recorded as succeeded with its output or failed with its error, stamped, scrubbed and with its retention; an interrupted one is not recorded |
| `JobRules.RestartLosesNothing` | internal/jobs/manager.go:129-154 | over a restart ended records stay as they are, all others are queued again with their payload, and exactly these are listed, each once |
| `JobRules.QueueBounded` | internal/jobs/manager.go:122-122 | in every reachable state the queue keeps to its size |
| `JobRules.StampsInOrder` | internal/jobs/manager.go:319-402 | in every reachable state the times of a record are in order and past, and an ended one is kept for the retention time from its end |
| `JobRules.SucceededExample` | internal/jobs/manager.go:213-363 | a run from submission to result, every field of the record written out |
| `JobRules.FailedExample` | internal/jobs/manager.go:343-359 | the same for a failure |
| `JobRules.CanceledExample` | internal/jobs/manager.go:268-317 | the same for a job canceled while queued |
| `IdempotencyClock.PublishStores` | internal/idempotency/cache.go:97-117 | a success is stored to expire one lifetime after it was published |
| `IdempotencyClock.DoneOnceInLifetime` | internal/idempotency/cache.go:62-117 | in clock time: if work that succeeded at some time starts again less than the lifetime later, at least max other keys were used since it was last used |
| `IdempotencyClock.NotTwiceAtOnce` | internal/idempotency/cache.go:62-117 | the same for work that has not finished |
| `IdempotencyClock.ReplayedInLifetime` | internal/idempotency/cache.go:71-80 | only a success less than the lifetime ago is replayed, and with its own data |
| `IdempotencyClock.HeldIsReplayed` | internal/idempotency/cache.go:71-80 | a success less than the lifetime ago that is still held is replayed, or waited for until its waiters are released |
| `IdempotencyClock.WaiterIsServed` | internal/idempotency/cache.go:82-91 | whoever waits wakes once the run is closed, with the data of a success and with none of a failure |
| `IdempotencyClock.FinishRecords` | internal/idempotency/cache.go:97-117 | a run ends as its work did, whatever has happened to its key meanwhile, and its waiters can then be released |
| `AuditRules.DecimalDenotes` | internal/audit/log.go:172-178 | numbers are hashed in decimal digits without leading zeros |
| `AuditRules.TextLines` | internal/audit/log.go:172-178 | what is hashed is nine lines in this order |
| `AuditRules.SealedWith` | internal/audit/log.go:112-135 | an appended entry carries the event, the next number, the hash before it, the hash of its own text and a seal over number and hash |
| `AuditRules.IntactExactly` | internal/audit/log.go:206-245 | a journal is intact if and only if its entries are numbered from one, each names the hash before it, the first the word genesis, each hashes its own text, and each seal is good |
| `AuditRules.ReportMeans` | internal/audit/log.go:206-250 | a report says intact only of a file that reads as such an unbroken chain |
| `MultisignRules.CreateExactly` | internal/multisign/multisign.go:217-251 | a session is opened if and only if there is something to sign, somebody to sign it, no empty requirement, a known format, and a seed, if any, that verifies |
| `MultisignRules.CreatedWith` | internal/multisign/multisign.go:236-270 | it starts with what was asked for, its deadline one lifetime from now, and the people of its seed |
| `MultisignRules.RefusedBecause` | internal/multisign/multisign.go:316-321 | a refused signer has signed already if they meet some requirement, and was not invited otherwise |
| `MultisignRules.MeetsExactly` | internal/multisign/multisign.go:67-87 | a person meets a requirement if and only if they agree in everything it names |
| `MultisignRules.CompleteExactly` | internal/multisign/multisign.go:146-151 | in every run a session is complete if and only if every requirement has its signature, or without requirements enough are in |
| `MultisignRules.SubmitAnswers` | internal/multisign/multisign.go:288-337 | each answer to a submission by its exact condition, in the order of the checks |
| `MultisignRules.DeadlineExactly` | internal/multisign/multisign.go:273-297 | from its deadline on the next Get or Submit leaves a pending session expired and otherwise as it was, and the submission is refused; before it Get changes nothing |
| `MultisignRules.NothingAfterDeadline` | internal/multisign/multisign.go:273-297 | over any run no submission at or after the deadline adds a signature |
| `Login.IdentityExactly` | internal/oidc/oidc.go:176-224 | a person is named if and only if the attempt is in time, signed, valid with a subject, and not revoked where OCSP is demanded; a revoked certificate and a late answer have their own errors |
| `Login.AuthorizeExactly` | internal/oidc/authcode.go:168-190 | a request passes if and only if client, redirect address, response type and PKCE are as they must be |
| `Login.PaysExactly` | internal/oidc/authcode.go:246-279 | an exchange is paid if and only if grant, client, secret, code, expiry, redirect address and PKCE verifier all agree |
| `Login.SpentExactly` | internal/challenge/store.go:96-108 | a challenge can be spent once, and spending it changes nothing else |
| `LoginSafety.EveryIssueIsProven` | internal/oidc/oidc.go:158-224 | in every run each code and each token goes back to an attempt that proved who answered, on the challenge created under that id |
| `LoginRules.AuthorizedExactly` | internal/oidc/authcode.go:197-231 | the steps of the machine for an authorization do together what the operation does |
| `LoginRules.VerifiedExactly` | internal/oidc/oidc.go:158-184 | and those for tokens straight from a challenge |
| `LoginRules.ExchangedExactly` | internal/oidc/authcode.go:246-267 | an exchange by an authenticated client spends the code it names, and is logged if and only if it is paid |
| `LoginRules.LoginExample` | internal/oidc/authcode.go:168-279 | a whole login of a public client in the last moment, and a second exchange that gets nothing |
| `BatchRules.PermitsExactly` | internal/core/batch.go:120-126 | as many items may run as the request says, else as the service does, and at least one |
| `BatchRules.RoomIsUsed` | internal/core/batch.go:138-142 | the dispatcher gets a permit if and only if fewer items run than allowed |
| `BatchRules.FailFastStops` | internal/core/batch.go:138-158 | under the fail-fast policy nothing more is started once a failure is stored, however the run goes on |
| `BatchRules.CancelStops` | internal/core/batch.go:138-142 | after a cancellation at most the item the dispatcher was about to start is started |
| `BatchRules.CarriesOn` | internal/core/batch.go:106-181 | a batch that carries on and is not cancelled runs everything |
| `BatchRules.NeverStuck` | internal/core/batch.go:106-181 | until the batch has returned some step other than a cancellation can be taken |
| `BatchRules.AlwaysReturns` | internal/core/batch.go:106-181 | from wherever a run stands the batch returns after a bounded number of steps |
| `BatchRules.StepsBounded` | internal/core/batch.go:106-181 | no schedule takes more than seven steps an item and four besides |
| `RegistryRules.CountersExactly` | internal/core/registry.go:75-99 | each counter is the number of documents whose report says so; no report is indeterminate, no output is failed |
| `RegistryRules.FirstTimeExactly` | internal/core/registry.go:110-117 | the time of a row is the first known signing time |
| `RegistryRules.FirstProblemExactly` | internal/core/registry.go:125-132 | the reason is the first step that failed or could not be determined |
| `RegistryRules.ReportedRow` | internal/core/registry.go:104-121 | field by field what the row of a reported document says |
| `RegistryRules.UnreportedRow` | internal/core/registry.go:76-107 | and that of one without a report |
| `DiagnosisRules.TimeStepExactly` | internal/core/explain.go:121-149 | a certificate outside its window fails the step if time was checked and else warns; an unknown window leaves it open; the bounds belong to the window |
| `DiagnosisRules.TimeStepBlames` | internal/core/explain.go:121-149 | the text is about the first certificate that is outside |
| `DiagnosisRules.ChainStepsExactly` | internal/core/explain.go:154-214 | missing roots and anchors warn, unverified chains fail when chains were checked |
| `DiagnosisRules.RevocationStepExactly` | internal/core/explain.go:223-253 | one revoked signer fails the step, an open one leaves it open, and it is skipped when it was not reached or nobody signed |
| `DiagnosisRules.RevocationStepBlames` | internal/core/explain.go:223-253 | an open step says whether its first open signer was asked about at all |
| `DiagnosisRules.DiagnosisExactly` | internal/core/explain.go:78-116 | six steps in this order, the first of them that of the signature; what they say when nobody signed |
| `VerificationRules.OverriddenExactly` | internal/core/service.go:363-380 | the library is overruled if and only if it found no anchor while checking chains and time, and every signer and the plain signature check say otherwise |
| `VerificationRules.SignerReported` | internal/core/service.go:424-470 | for every signer: validity and revocation as reported, by their exact conditions |
| `VerificationRules.ReportExactly` | internal/core/service.go:347-413 | there is no report if and only if the library failed for its own reasons and was not overruled; otherwise its steps and verdict are those of the checked signature |
| `CrlRules.AnswerExactly` | internal/crl/crl.go:209-250 | a fresh held list, else the delivery as current, else the held list as stale, in terms of the next update itself |
| `CrlRules.ResolvedExactly` | internal/crl/crl.go:154-194 | reliability, the delta used and each reason, in terms of the numbers and key identifiers of the lists |
| `CrlRules.LookupWithoutFetch` | internal/crl/crl.go:209-225 | a lookup that fetches nothing only marks the list as used |
| `CrlRules.LookupWithFetch` | internal/crl/crl.go:229-280 | a fetched list is held as delivered, measured and parsed; survivors are unchanged and were used no earlier than victims |
| `CrlRules.NothingGoesInRoom` | internal/crl/crl.go:284-307 | nothing goes while everything fits |
| `OcspRules.KeptExactly` | internal/ocspcache/cache.go:123-136 | a kept answer is good for the time set for its kind from its acceptance, and no longer than the responder promised |
| `OcspRules.AcceptedExactly` | internal/ocspcache/cache.go:129-136 | an answer is kept unless the promise has run out |
| `OcspRules.HeldExactly` | internal/ocspcache/cache.go:97-143 | what is held is the answer accepted last, given out exactly for its time |
| `OcspRules.EvictedExactly` | internal/ocspcache/cache.go:147-166 | room is made only when there is none, the expired go first, then the oldest |
| `ValidationRules.LiveExactly` | internal/core/service.go:715-780 | a status is revoked, determinate or failed by its exact condition on the driver call, and carries the fields of the response |
| `ValidationRules.RevocationIsKept` | internal/core/service.go:781-820 | a revocation is told again as one, for the lifetime of revocations |

## Left out

- Cryptography, hashing, X.509 and CMS parsing beyond the shapes above, JSON, HTTP, disk and the clock: functions, parameters or choices made by the environment.
- The BoltStore variants, whose error paths can drop a queue token: the stores are the in-memory ones, whose operations are atomic.
- DER lengths are unbounded numbers up to the reader's limit of 2^31; memory exhaustion is not modelled.
- The warm-up request channel of the supervisor: the warmer may wake at any time, which includes every wake-up the code allows.
- Progress of a caller waiting for a slot while Close is under way: a late caller may block, and nothing is claimed about it.
- Job idempotency keys (SubmitIdempotent) and webhooks: they only repeat a submit or report a result.
- The journal's sequence number is unbounded, and an instant is carried as its formatted text; a line is written whole or not at all.
- Concurrent submissions to one multi-signature session: its read and its save are separate, so sessions are modelled one operation at a time.
- Audit.TamperExactly: hashes are on one line, as hexadecimal digits are, and the signature check looks at number, hash and signature only, as the seal does.
- Multisign.Record: case folding of roles is a given: each role is carried with its folded spelling.
- LoginSafety.ExchangeIsBacked: clients are registered under their own identifiers, as the client parser does.
- Building the redirect address, claims and tokens: a code is issued even when that address does not parse, and signing may fail, and both are in the model as choices.
- The order in which Verify retries with discovered anchors, the archive it attaches and the receipt it signs: the model starts from the library's last answer.
- DiagnosisRules.DiagnosisExactly: a signature that did not verify has one text, where the code repeats the library's message and has another when the input holds no signature at all.
- VerifyAt, chain building and claims.
- CrlCache.Cache.Get: bodies are held in memory, so a spooled file that vanishes or changes is not modelled, and one resolution reads the clock once and gets one delivery per address.
- OcspCache.Cache.Lookup: the count of stapled responses is not kept; a certificate stands for its fingerprint.
- The CRL method of the certificate check, its fallback to OCSP and the overlay of a delta.
- Configuration, transports, metrics, code generators, network and file adapters: shallow code around the above.
