# FluxSeer RCA: models and proofs

FluxSeer RCA investigates incidents in a Kubernetes cluster, proposes remediation and, once a remediation is approved,
executes it. These Dafny modules model the parts of it where correctness is a matter of several functions, several
controllers or many interleavings, and prove what those parts promise.

| area | modules |
|---|---|
| the approved-action protocol | `AgentActions`, `Guardrails`, `EffectivenessEvaluation`, `Executor`, `ActionHistory`, `HistoryTheorems`, `ActionTimes`, `ActionRecords`, `ApprovalProtocol`, `ApprovalProtocolProofs`, `ApprovalInvariant`, `ApprovalTheorems`, `RedecisionRuns`, `DeletionTheorems`, `StaleRuns`, `AgentActionController`, `RemediationPlanController` |
| diagnostic candidates and their two evidence gates | `Accounting`, `AccountingTheorems`, `AccountingIdentity`, `AccountingOrder`, `AccountingInventory`, `EvidenceGates`, `ShadowVerifier`, `GateAgreement`, `EvidenceInventory`, `SeparatorExamples` |
| the bounded concurrent query collector | `Collector`, `CollectorTheorems`, `CollectorConfluence`, `CollectorCancellation` |
| provider fallback, egress filter and audit | `Classification`, `Fallback`, `ProviderEgress` |
| the InvestigationRequest status | `Verdict`, `StatusBudget`, `InvestigationStatus`, `InvestigationTheorems` |
| the PromQL query policy | `PromQL`, `PromQLTheorems`, `PromQLTokens`, `PromQLDecision` |
| shared | `Wrappers`, `Text`, `Sorting`, `SortedStrings` |

**How the protocol is modelled.** `ApprovalProtocol` is a state machine over versioned stores. A reconcile pass of
either controller is a task that makes one API call per step; between any two steps any other pass, a user, or the
cluster may act. A read returns any version ever stored, a status update succeeds only on the latest version, a pass may
stop for ever at any point, and a backend call may time out before or after it took effect. Every write that lands is
one of the fourteen writes of `ActionHistory`, so the stored versions form one serial history
(`ApprovalTheorems.EveryRunIsOneHistory`) and the theorems of `HistoryTheorems` and `ActionTimes` about serial
histories hold of every interleaving. `AgentActionController`, `RemediationPlanController` and `Executor` hold the code
in its own form, objects changed field by field, each method proved equal to the function that the state machine uses.

**Imperative parts elsewhere.** Loops over maps, buffers and counters are methods with invariants, proved against
specification functions; the lemmas are about those functions. Sorting is the stable sort of the standard library,
given as a function (`Sorting.StableSort`) with the lemmas that make its result unique.

**Hashes.** A digest is an injective function of its content. In the protocol it is a constructor; in accounting, where
its byte order matters, it is a function parameter, and each lemma that needs injectivity says so.

## Findings

What does not hold as one might expect it, each with the code it is about, the exact condition and a lemma:

- internal/controllers/remediationplan_controller.go:165-223: an action may be dispatched again after its plan is decided
  again. The bound on Execute calls has one more for each decision after a dispatch (`ApprovalTheorems.ExecuteCallsAreBounded`), and
  it is reached for every number of them (`RedecisionRuns.BoundIsReached`). The pod template still changes once per
  identity (`ApprovalTheorems.TemplateChangesOncePerIdentity`).
- internal/controllers/agentaction_controller.go:855-858: an action may be deleted while its execution is being verified,
  because a deletion carries no version (`DeletionTheorems.DeletionCanHitVerification`). It takes a decision, or an
  outcome written over an ended version, after the version that the deleting pass read
  (`DeletionTheorems.DeletedUnderVerificationOnlyAfter`, `DeletionTheorems.UnderVerificationExactlyWhen`).
- internal/controllers/remediationplan_controller.go:352-357: after a manual decision, naming an approver gets the action
  dispatched exactly when no ApprovalPolicy matched, because a matched one is recorded as the source
  (`HistoryTheorems.NamingAnApproverDispatchesExactlyWhen`, `HistoryTheorems.PolicyManualIsNotConfirmed`).
- internal/controllers/remediationplan_controller.go:146-148: a manual decision keeps the approver that an earlier automatic
  decision wrote into the spec, and such an action is dispatched without a human, exactly when an approver is left there
  (`HistoryTheorems.ManualDecisionDispatchesExactlyWhen`, `StaleRuns.LeftApproverCanSign`).
- internal/guardrails/engine.go:81-94: a limit of automatic approval of another name than the four severities is above them
  all, so it approves every listed and unguarded action (`Guardrails.DecidesExactlyWhen`).
- internal/executor/router.go:147-153: the merge patch of a restart carries neither UID nor version, so it can land on a
  Deployment that replaced the one that was read (`ApprovalTheorems.PatchesAreOfTheTarget`,
  `StaleRuns.ReplacementCanBeRestarted`).
- internal/controllers/agentaction_controller.go:223-230: the guards that skip an unchanged status write before a dispatch,
  a pending reset and an escalation never skip (`ApprovalProtocolProofs.GuardedWritesChangeTheStatus`); were one to skip,
  the backend would be called unrecorded.
- internal/diagnostic/accounting.go:88-196: accounting follows the order of its input exactly when two records of one
  fingerprint and unconflicted ID are refused in the same way for different reasons
  (`AccountingOrder.OrderIgnoredExactlyWhen`). Over one inventory this takes a `|` both in a reference and in an ID, a UID
  or the text of an instant of the inventory (`AccountingInventory.SharedInventoryIgnoresOrder`), and a collected
  inventory can have it (`SeparatorExamples.SeparatorInIDsMatters`).
- internal/investigation/verifier_shadow.go:257-333: the shadow verification refuses a proposal exactly when the record it
  looks up was not accepted itself or names a blank reference (`GateAgreement.GatesAgree`). Without `|` in the references,
  or in the inventory, only the blank reference is left (`GateAgreement.GatesAgreeOnPlainIDs`); with it the other case
  occurs (`SeparatorExamples.SeparatorCanSplitTheGates`).
- internal/investigation/service.go:493-499: a cancelled collection that ends without an issue answers the plan without the
  queries that were passed over (`CollectorCancellation.AnswersWhatWasNotSkipped`), possibly nothing
  (`CollectorCancellation.CancellationCanDropEverything`).
- internal/investigation/service.go:1067-1082: kinds are allowed by their normalized form, while a log is recognized by its
  kind as written. With log samples disallowed, every log that is sent is blanked exactly when none is written in another
  form (`ProviderEgress.LogsBlankedExactlyWhen`, `ProviderEgress.TrailingBlankEscapes`).
- internal/investigation/service.go:784-794: the audit follows a trace of eight attempts, so every provider that was sent an
  input is in it exactly when none beyond the eighth attempt was (`ProviderEgress.SentIsTracedExactlyWhen`).
- internal/dataclassification/classification.go:63-90: the merged classification level depends on the order exactly when
  two items of the highest rank name different levels; the first wins (`Classification.LevelIgnoresOrderExactlyWhen`).
- internal/dataclassification/classification.go:63-68: a bundle is at least internal, so a provider limited to public data is
  allowed nothing, public data included (`Classification.AllowedExactlyWhen`).
- internal/controllers/investigationrequest_controller.go:1480-1567: after a failed evidence collection or a failed provider
  the Verified condition is still that of an earlier generation (`InvestigationTheorems.VerifiedIsCarriedExactlyWhen`,
  `InvestigationTheorems.FailedCanLookVerified`).
- internal/statusbudget/limits.go:77-100: the status size budget drops the claims that confirmed an investigation exactly
  when the first of them is beyond its room (`InvestigationTheorems.CauseIsShownExactlyWhen`,
  `InvestigationTheorems.TruncationCanHideTheCause`), and it cuts every statement to 1024 bytes
  (`InvestigationTheorems.StoredClaimsAreCut`).
- internal/querypolicy/promql.go:149-160: the check for a doubled `@` in PromQL never matters (`PromQL.HasPromQLAtModifier`).

Two more points that the model follows and that are easy to miss: the approver in the executor's request is the one
recorded before a manual approval is confirmed, so approval is stated on the spec and the status; and the target UID is
an annotation that the content digest does not cover.

## Model

| member | source | states |
|---|---|---|
| ApprovalTheorems.EveryRunIsOneHistory | internal/controllers/agentaction_controller.go:223-231 | in every interleaving the stored versions are one history of legal writes, each applied to the version before it |
| ApprovalTheorems.ExecuteCallsAreBounded | internal/controllers/agentaction_controller.go:113-131 | Execute calls never outnumber recorded dispatches, and these are at most one more than the decisions written after the first dispatch |
| ApprovalTheorems.ExecutedAtMostOnce | internal/controllers/agentaction_controller.go:116-131 | with no decision written after a dispatch, there is at most one backend Execute call |
| RedecisionRuns.BoundIsReached | internal/controllers/remediationplan_controller.go:165-223 | for every n and every initial state whose plan is approved automatically and whose target exists, a run with n + 1 Execute calls and n decisions written after the first dispatch, so that bound is exact |
| RedecisionRuns.DecisionReopens | internal/controllers/remediationplan_controller.go:176-188 | whatever became of an action before, an automatic decision makes it dispatchable exactly when it is not being verified |
| ApprovalTheorems.CallsAreRecordedAhead | internal/controllers/agentaction_controller.go:182-232 | at every moment each call made so far has a stored Executing version with its own non-empty identity, approved for the digest of its spec |
| ApprovalTheorems.OnlyDecidedContentIsExecuted | internal/controllers/agentaction_controller.go:795-812 | each executed content was decided before, from a stored plan and not by a rejection, and on the manual path the approver is named in the version that records Executing |
| ApprovalTheorems.CoveredContentIsThePlans | internal/controllers/remediationplan_controller.go:138-148 | what is executed has the target, type, parameters, rollback and times of the decided plan, and the evaluation's dry run and timeout |
| ApprovalTheorems.LegacyEngineLimitsWhatRuns | internal/guardrails/engine.go:31-79 | in every run, when no policy matched, only listed action types execute, and above the limit of automatic approval, or guarded by a protected namespace, only with an approver named; that name was written by a user or left by an automatic decision |
| Guardrails.DecidesExactlyWhen | internal/guardrails/engine.go:31-94 | automatic, manual and rejected, each exactly when, by allow list, namespace and the order low, medium, high, unsafe against both thresholds with their defaults |
| ApprovalTheorems.TemplateChangesAreBounded | internal/executor/router.go:134-165 | while nobody else writes the annotations, template changes of an identity are at most its replacements by others, plus one while it is the live one |
| ApprovalTheorems.TemplateChangesOncePerIdentity | internal/executor/router.go:143-153 | an identity that no other one replaced changes the pod template at most once, stale Deployment reads included |
| ApprovalTheorems.SuccessMeansCarried | internal/executor/router.go:250-276 | a success reported by the Kubernetes backend, executed or resolved, is about an identity that the template carried |
| ApprovalTheorems.PatchesAreOfTheTarget | internal/executor/router.go:131-153 | in every run a patch under way is a complete rollout restart of a Deployment that some stored version was by UID, and is on its way to another object only after that one was replaced |
| ApprovalTheorems.BaselinesAreOfTheirTarget | internal/executor/router.go:168-196 | in every run a recorded baseline is of the object that the action names, by UID |
| ApprovalTheorems.UnknownIsNotFailure | internal/controllers/agentaction_controller.go:232-287 | in every run, what is stored for a backend's answer is a success exactly for no error, a failure exactly for an error with a known outcome, and otherwise an execution whose outcome stays unknown |
| ApprovalTheorems.ResolvingOnlyRecovers | internal/controllers/agentaction_controller.go:120-131 | in every run a pass that has read a recorded execution executes nothing: it recovers a success about that identity, or stores nothing |
| StaleRuns.ReplacementCanBeRestarted | internal/executor/router.go:147-153 | from every initial state with an automatically approved restart, and for every replacement of the target, a run in which the replacement is restarted |
| ApprovalTheorems.DecidedPlansAreRecorded | internal/controllers/remediationplan_controller.go:165-223 | in every run a plan in phase Approved or WaitingApproval has that decision on record in its action, from some version on up to the first with other content |
| ApprovalTheorems.EscalationFollowsItsNotice | internal/controllers/agentaction_controller.go:712-779 | with a notifier, Escalated lands only directly on top of the attempt record of the same pass, whose notification was delivered |
| ApprovalTheorems.WaitingPassesWriteNothingEarly | internal/controllers/agentaction_controller.go:690-697 | in every run, a pass that has read a validly waiting version changes no store before its deadline, and a pass whose notice is out stored its attempt at or after it |
| ApprovalTheorems.WaitingVersionsChangeInTime | internal/controllers/agentaction_controller.go:656-781 | in every run, what the action controller decides to write on a validly waiting version lands at or after its deadline, and is an attempt record or an escalation |
| DeletionTheorems.DeletesOnlyWhatItSawFinished | internal/controllers/agentaction_controller.go:834-866 | the action controller deletes only what it read as terminal, expired, not retained and not under verification |
| DeletionTheorems.DeletedUnderVerificationOnlyAfter | internal/controllers/agentaction_controller.go:850-859 | in every run, a deletion hits an action under verification only if, after the version its pass read, the action was decided again or an outcome was written over an ended version |
| DeletionTheorems.UnderVerificationExactlyWhen | internal/controllers/agentaction_controller.go:377-400 | a version of a history is under verification exactly when some success over a baseline was written before it and no verdict since |
| DeletionTheorems.SuccessVerifies | internal/controllers/agentaction_controller.go:340-400 | a success with a baseline puts any version under verification, an ended one too, so the second alternative needs no decision |
| DeletionTheorems.DeletionCanHitVerification | internal/controllers/agentaction_controller.go:855-858 | from every initial state with an automatically approved restart and a time to live, a run that deletes the action while it is being verified |
| ApprovalInvariant.RunInv | internal/controllers/agentaction_controller.go:99-287 | the invariant of the protocol holds in every state that any sequence of events reaches |
| ApprovalInvariant.CallsAreTheCallers | internal/controllers/agentaction_controller.go:223-232 | a pass becomes the caller of a dispatch only by landing that very write, and calls only that |
| ApprovalInvariant.PatchKeepsAnnotations | internal/executor/router.go:147-153 | a landed merge patch, made from whatever old copy, keeps the accounts of template changes |
| ApprovalProtocolProofs.EveryIntentOk | internal/controllers/agentaction_controller.go:99-287 | whatever a pass asks for fits what the versions it has read and written allow |
| ApprovalProtocolProofs.EveryStoreIsLegal | internal/controllers/agentaction_controller.go:656-781 | no write is refused for its content: only a newer version or a deletion refuses it |
| ApprovalProtocolProofs.GuardedWritesChangeTheStatus | internal/controllers/agentaction_controller.go:223-230 | the writes that are skipped for an unchanged status always change it |
| HistoryTheorems.EveryWriteMoves | internal/controllers/agentaction_controller.go:182-281 | what each legal write does to phase, identity, anchor, retries and approval, as stored in whole seconds |
| ActionRecords.HistoryIsOnRecord | internal/controllers/agentaction_controller.go:155-413 | in every history each version is what its write leaves on the one before it, field by field and as stored: who signed, the identities, outcome, reason, times and windows, and nothing else changed |
| ActionRecords.RoutesExactlyWhen | internal/controllers/agentaction_controller.go:110-135 | a pass verifies, deletes, resolves, waits or dispatches, each exactly when, by phase, identity, digest, record and named approver |
| ActionRecords.WritesExactlyWhen | internal/controllers/agentaction_controller.go:492-866 | the pending record, the notice, the escalation, both ends of a verification and the deletion, each exactly when, by record, timeout, windows and time to live |
| ActionRecords.IdentityExactlyWhen | internal/controllers/agentaction_controller.go:136-154 | two versions share an execution identity exactly when object, generation, target, target UID and content agree, the approver aside |
| ActionRecords.RequestIsOfTheSpec | internal/controllers/agentaction_controller.go:159-172 | the backend is asked for what the spec says, under the action's identity |
| ActionRecords.RequestIsRebuilt | internal/controllers/agentaction_controller.go:289-312 | a later pass rebuilds from the stored version the request that was sent, with the approver on record |
| HistoryTheorems.DispatchBound | internal/controllers/agentaction_controller.go:116-131 | in a serial history dispatches are at most one more than the decisions written after the first dispatch; refused dispatches do not count |
| HistoryTheorems.DispatchIsApproved | internal/controllers/agentaction_controller.go:795-812 | a recorded dispatch was decided for exactly its content: automatically, or by hand with an approver named in the same version |
| HistoryTheorems.PolicyManualIsNotConfirmed | internal/controllers/remediationplan_controller.go:352-357 | after a manual decision of a matched policy the action stays unapproved until it is decided again |
| HistoryTheorems.ManualIsConfirmedExactlyWhen | internal/controllers/agentaction_controller.go:795-812 | while the content stays, a manually decided action counts as approved exactly when no policy matched and an approver is named, whatever else was written |
| HistoryTheorems.NamingAnApproverDispatchesExactlyWhen | internal/controllers/agentaction_controller.go:110-135 | naming an approver after a manual decision makes the next pass dispatch exactly when no policy matched and the action was not under verification |
| HistoryTheorems.ManualDecisionDispatchesExactlyWhen | internal/controllers/remediationplan_controller.go:146-148 | a manual decision itself makes an action dispatchable exactly when an approver is left from before it, no policy matched and it is not under verification |
| StaleRuns.LeftApproverCanSign | internal/controllers/remediationplan_controller.go:146-198 | from every initial state whose plan is approved automatically and above the limit once its severity is edited, a run that reaches the backend by a manual decision although no user named an approver |
| HistoryTheorems.DecisionStays | internal/controllers/agentaction_controller.go:656-679 | a recorded decision stays on record, whoever writes, while the content stays the same |
| HistoryTheorems.PendingNeedsChangedContent | internal/controllers/agentaction_controller.go:656-676 | the transient pending record replaces a decision only after the digest of the content changed |
| HistoryTheorems.DeadlineDoesNotSlide | internal/controllers/agentaction_controller.go:689-766 | while an action waits its anchor stays and its retry count is the number of attempts |
| HistoryTheorems.EscalationIsNotEarly | internal/controllers/agentaction_controller.go:690-697 | an escalation comes at or after the timeout counted from the start of the wait, however often it was retried |
| HistoryTheorems.EscalatedOncePerWait | internal/controllers/agentaction_controller.go:690-692 | between two escalations some other write ended the waiting period |
| ActionTimes.SuccessIsInOrder | internal/controllers/agentaction_controller.go:367-400 | on recorded success with a baseline, captured before started before finished, strictly, for any clock |
| ActionTimes.SuccessKeepsTimeOrder | internal/controllers/agentaction_controller.go:378-400 | stored in whole seconds, captured still before started and started no later than finished, and the two windows differ by exactly the observation window |
| ActionTimes.RecordedSuccessIsInOrder | internal/controllers/agentaction_controller.go:177-181 | the same order in every history, since a stored baseline always has a stored start beside it |
| ActionTimes.VerdictWaitsForItsWindows | internal/controllers/agentaction_controller.go:492-551 | a verdict is stored only after both windows following a recorded success, on a terminal verification; Effective is the evaluation of the stored baseline |
| EffectivenessEvaluation.EffectiveExactlyWhen | internal/controllers/effectiveness.go:15-77 | Effective exactly when intent is unchanged, no issue was found, the target is healthy, nothing regressed and something strictly improved |
| EffectivenessEvaluation.VerdictsExactlyWhen | internal/controllers/effectiveness.go:15-48 | Regressed, Ineffective and Inconclusive, each exactly when |
| EffectivenessEvaluation.UnhealthyExactlyWhen | internal/controllers/effectiveness.go:50-70 | unhealthy exactly for too few replicas of a wanted number, an unobserved generation or a condition that is False |
| EffectivenessEvaluation.NewlyBadExactlyWhen | internal/controllers/effectiveness.go:95-112 | a condition turned bad exactly when it is False now and was not so, by the last baseline condition of its type |
| EffectivenessEvaluation.ZeroReplicasCanStillRegress | internal/controllers/effectiveness.go:50-112 | a target scaled to zero counts as healthy, yet a condition that turned bad still regresses |
| EffectivenessEvaluation.MateriallyRegressed | internal/controllers/effectiveness.go:95-112 | the loop over the last baseline condition of each type finds exactly the regressions |
| EffectivenessEvaluation.HealthIsHealthy | internal/controllers/effectiveness.go:50-70 | the checks in order decide health exactly |
| AgentActions.RenderTellsSourcesApart | internal/controllers/remediationplan_controller.go:352-357 | the stored source text tells the controller's own sources apart from each other and from every policy reference |
| AgentActions.DigestIgnoresOnlyTheApprover | internal/controllers/agentaction_controller.go:821-828 | two specs share a digest exactly when they differ at most in the approver |
| AgentActionController.ActionObject.Decide | internal/controllers/agentaction_controller.go:110-135 | the tests of a pass, in order, select the branch that the state machine takes |
| AgentActionController.ActionObject.CheckApproved | internal/controllers/agentaction_controller.go:795-812 | approval as the digest match with an approved record, or a manual requirement with an approver |
| AgentActionController.ActionObject.MarkExecuting | internal/controllers/agentaction_controller.go:155-222 | the in-place updates leave exactly the executing status and change nothing else |
| AgentActionController.ActionObject.FailBeforeDispatch | internal/controllers/agentaction_controller.go:314-338 | the in-place updates leave exactly the status of a refused dispatch |
| AgentActionController.ActionObject.RecordError | internal/controllers/agentaction_controller.go:232-281 | an unknown outcome stays Executing, any other error becomes Failed, each as the specified status |
| AgentActionController.ActionObject.RecordSuccess | internal/controllers/agentaction_controller.go:340-400 | the in-place updates leave exactly the success status, with the start moved past the baseline |
| AgentActionController.ActionObject.ResetToPending | internal/controllers/agentaction_controller.go:656-676 | an up to date record is left alone, any other becomes the pending record |
| AgentActionController.ActionObject.TimedOut | internal/controllers/agentaction_controller.go:689-697 | whether the timeout has run out |
| AgentActionController.ActionObject.AttemptNotification | internal/controllers/agentaction_controller.go:716-726 | the attempt record counts one more retry and nothing else changes |
| AgentActionController.ActionObject.FailNotification | internal/controllers/agentaction_controller.go:747-752 | a failed notice leaves its error in the attempt record and nothing else changes |
| AgentActionController.ActionObject.Escalate | internal/controllers/agentaction_controller.go:768-776 | the escalated status keeps the approval record but for its time |
| AgentActionController.ActionObject.Expired | internal/controllers/agentaction_controller.go:834-858 | the tests of the time to live in order decide whether a finished action is deleted |
| AgentActionController.ActionObject.CompleteVerification | internal/controllers/agentaction_controller.go:533-549 | the completed verification holds the verdict, or Inconclusive when observing failed |
| AgentActionController.ActionObject.RecordDecision | internal/controllers/remediationplan_controller.go:170-217 | the plan controller's record of a decision on the action it owns |
| AgentActionController.VerificationName | internal/controllers/agentaction_controller.go:625-640 | at most 63 characters: as much of the action's name as there is room for, the infix, and the first sixteen characters of the hash of UID and identity |
| AgentActionController.VerificationNamesFollowTheHash | internal/controllers/agentaction_controller.go:625-640 | for hashes of one length, names are equal only for equal suffixes, whatever was cut from the action name |
| AgentActionController.OneVerificationPerExecution | internal/controllers/agentaction_controller.go:625-640 | no write changes the verification name while the execution identity stays |
| RemediationPlanController.ActionDraft.FillFromPlan | internal/controllers/remediationplan_controller.go:108-149 | the create-or-update callback overwrites everything but the approver, which only an automatic decision sets |
| RemediationPlanController.FillingAgainKeepsTheDigest | internal/controllers/remediationplan_controller.go:138-147 | filling an action again from the same plan and decision changes nothing and keeps the digest |
| RemediationPlanController.DefaultsFillGaps | internal/controllers/remediationplan_controller.go:66-107 | namespace defaults fill what a plan leaves out and change nothing that it says |
| Executor.KubernetesExecutor.Execute | internal/executor/router.go:120-166 | the live Deployment after an Execute on a possibly old copy: it changes only for a complete request about the very object by UID under a new identity, and then in nothing but the two annotations; each refusal and each patch fault with its answer |
| Executor.PatchesExactlyWhen | internal/executor/router.go:131-145 | a patch is due exactly for a complete restart request whose UID the copy has and whose identity it does not carry |
| Executor.BackendsByType | internal/executor/router.go:89-102 | which backend an action type goes to, by its prefix |
| Executor.ResolvesExactlyWhen | internal/executor/router.go:250-276 | a result is recovered exactly for a complete restart request whose UID and identity the copy carries |
| ApprovalProtocolProofs.ExecuteNamesItsIdentity | internal/executor/router.go:143-153 | an Execute that does not patch has seen its identity, one that patches writes its identity |
| Accounting.AccountCandidates | internal/diagnostic/accounting.go:88-180 | the algorithm over arrays, maps and sorts gives the specified account, and its four counts sum to the number of inputs |
| Accounting.RejectIdentityConflicts | internal/diagnostic/accounting.go:104-126 | exactly the items whose ID is used for two contents are rejected |
| Accounting.DeduplicateClaims | internal/diagnostic/accounting.go:128-159 | in whatever order the groups are visited, each eligible item is proposed or a duplicate as specified |
| Accounting.LeaderIsCanonical | internal/diagnostic/accounting.go:136-144 | the chosen item is the least by candidate fingerprint and ID, the earliest of equals |
| Accounting.ValidateCandidate | internal/diagnostic/accounting.go:234-289 | the loop returns the first fault in reference order, or whether anything is incomplete |
| Accounting.EvidenceIdentityConflicts | internal/diagnostic/accounting.go:327-350 | exactly the IDs with two differing identities are in conflict |
| Accounting.EvidenceIdentityMap | internal/diagnostic/accounting.go:312-325 | the first identity of each ID |
| Accounting.CollectUniqueStrings | internal/diagnostic/accounting.go:365-381 | the distinct non-blank trimmed values, sorted |
| Accounting.CompatibleMeansOverlapping | internal/diagnostic/accounting.go:352-363 | known windows are compatible exactly when an instant lies in both |
| Accounting.NormalizeStatementKeepsBlank | internal/diagnostic/accounting.go:383-385 | a normalized statement is empty exactly when the statement is blank |
| Accounting.SummarizeDispositions | internal/diagnostic/accounting.go:291-310 | the counts by disposition, which sum to the total |
| AccountingTheorems.EligibleExactlyWhenSound | internal/diagnostic/accounting.go:234-289 | a candidate is accepted exactly when its header is complete and every reference is known, undisputed, authorized, valid, complete, about its target and overlapping in time |
| AccountingTheorems.RetainedExactlyWhen | internal/diagnostic/accounting.go:234-288 | retained exactly for a complete header and no references, or incomplete evidence with nothing else against it; rejected exactly for an incomplete header or a reference with something against it |
| AccountingTheorems.RejectionsNameTheFault | internal/diagnostic/accounting.go:234-288 | a rejected candidate names the first missing field of its header, or what speaks against its first bad reference, in the order of the tests; the other ends name theirs |
| AccountingTheorems.AccountingConserves | internal/diagnostic/accounting.go:162-180 | every input is resolved as often as it occurs |
| AccountingIdentity.ClaimsAgreeExactlyWhen | internal/diagnostic/accounting.go:214-222 | claim fingerprints are equal exactly for the same type, the same words, the same target and the same incident window |
| AccountingIdentity.CandidatesAgreeExactlyWhen | internal/diagnostic/accounting.go:185-208 | without the separator in the evidence, candidate fingerprints are equal exactly for the same claim of the same diagnostic under the same ID, on the same references with the same identities |
| AccountingIdentity.DisputedExactlyWhen | internal/diagnostic/accounting.go:327-350 | an evidence ID is in conflict exactly when two identities of it differ in target, window or a flag |
| AccountingIdentity.OneProposalPerClaim | internal/diagnostic/accounting.go:128-159 | among the accepted records that make the same claim exactly one is proposed, and each of the others is a duplicate that names it |
| AccountingIdentity.OthersAreRefused | internal/diagnostic/accounting.go:234-288 | every record that is not complete, sound and under an ID of its own is rejected or retained |
| AccountingIdentity.DuplicatesMakeTheSameClaim | internal/diagnostic/accounting.go:152-158 | a duplicate is of an accepted record, and names the proposal of a record with the same claim |
| AccountingTheorems.DuplicatesNameTheProposal | internal/diagnostic/accounting.go:152-158 | every duplicate names a proposal with its claim fingerprint that is not above it |
| AccountingTheorems.ConflictsAreRejected | internal/diagnostic/accounting.go:104-126 | a resolution is an identity conflict exactly when its ID is used for two contents, and it is then rejected |
| AccountingTheorems.ProposalsAreSound | internal/diagnostic/accounting.go:234-289 | a proposal stands on a record whose whole evidence is sound, under an unconflicted ID |
| AccountingOrder.OrderIgnoredExactlyWhen | internal/diagnostic/accounting.go:88-180 | every order of the input gives the identical sequence of resolutions exactly when no two records of one fingerprint and unconflicted ID are refused in the same way for different reasons |
| AccountingOrder.ResolutionsIgnoreOrder | internal/diagnostic/accounting.go:88-180 | whatever the order, the same resolutions come out, each as often |
| AccountingOrder.AccountIsInOrder | internal/diagnostic/accounting.go:165-174 | the account comes in the order of candidate fingerprints, then of IDs, then of the names of dispositions |
| AccountingInventory.SharedInventoryDetermines | internal/diagnostic/accounting.go:185-209 | over one inventory, when no reference or no inventory entry holds the separator, fingerprint and ID decide the whole verdict |
| AccountingInventory.SharedInventoryIgnoresOrder | internal/diagnostic/accounting.go:88-180 | so the account of candidates read against such an inventory does not depend on their order |
| AccountingInventory.PlainInventoryIsLegible | internal/diagnostic/accounting.go:188-196 | over an inventory without the separator, different IDs, known or unknown, never share a description |
| SeparatorExamples.SeparatorInIDsMatters | internal/diagnostic/accounting.go:188-196 | an inventory that a collection gives, and two candidates over it whose account follows the input order, whatever the digests |
| AccountingInventory.UniqueStringsIdempotent | internal/diagnostic/accounting.go:365-381 | normalizing references twice is normalizing them once |
| EvidenceGates.DiagnosticEvidenceInventory | internal/investigation/reconciliation.go:28-111 | the loops, sort and in-place compaction give the specified inventory |
| EvidenceInventory.InventoryExactlyWhen | internal/investigation/reconciliation.go:28-111 | the inventory holds exactly, for each reference with an ID, an entry for each observation of a pod that names it, or one about the single target of the incident if there is none |
| EvidenceGates.CompactInPlace | internal/investigation/reconciliation.go:101-110 | compaction over the same buffer drops exactly the entries equal to the one kept before them |
| EvidenceGates.ReconcileDiagnosticCandidates | internal/investigation/reconciliation.go:183-252 | nameless diagnostics, no candidates, a missing inventory, or the sorted records with their account |
| EvidenceInventory.ReconcilesExactlyWhen | internal/investigation/reconciliation.go:183-252 | each end exactly when, and on completion one record for each claim, of its diagnostic, over the whole inventory |
| ShadowVerifier.TrustedVerifierEvidence | internal/investigation/verifier_shadow.go:275-292 | refused exactly when an ID has two contents, otherwise exactly the IDs present, each with the contents given for it |
| ShadowVerifier.RecordsByCandidateID | internal/investigation/verifier_shadow.go:257-269 | the first record of each candidate ID |
| ShadowVerifier.ShadowWindowsAgree | internal/investigation/verifier_shadow.go:335-346 | the verifier's own window test is that of accounting: all bounds unknown, or all known and some instant in both windows |
| ShadowVerifier.EvidenceForCandidate | internal/investigation/verifier_shadow.go:294-333 | accepted exactly when there are references and each has one acceptable identity; the verifier is then shown the trusted reference of each ID named, in the order of the IDs |
| ShadowVerifier.ShownIsOne | internal/investigation/verifier_shadow.go:328-333 | there is only one list that the verifier can be shown for a record |
| ShadowVerifier.VerifyReconciledCandidates | internal/investigation/verifier_shadow.go:147-255 | completes exactly when the references agree and every proposal passes; an entry per resolution in order, each verified one with the verifier's own answer for its record, and the counts and coverage of the entries |
| GateAgreement.GatesAgree | internal/investigation/verifier_shadow.go:155-254 | for the inventory of the collection, a proposal is looked up as a record with its own fingerprint, and passes exactly when that record is accepted itself and has no blank reference |
| GateAgreement.GatesAgreeOnPlainIDs | internal/investigation/verifier_shadow.go:155-254 | when no reference or no inventory entry holds the separator, it passes exactly when that record has no blank reference |
| GateAgreement.ShadowCompletesExactlyWhen | internal/investigation/verifier_shadow.go:147-255 | shadow verification completes exactly when no two references clash and the record of each proposal is accepted and without blank references |
| SeparatorExamples.SeparatorCanSplitTheGates | internal/investigation/verifier_shadow.go:257-333 | a collection and a diagnostic for which a proposal without blank references is refused, since another record is looked up |
| GateAgreement.OneIsKept | internal/investigation/reconciliation.go:91-110 | when all entries of an ID agree, sorting and dropping equal neighbours leaves exactly one |
| GateAgreement.ProposalIsFound | internal/investigation/verifier_shadow.go:257-269 | the first record with a proposal's ID has the proposal's fingerprint and a complete header |
| Collector.EffectiveConcurrency | internal/investigation/service.go:619-631 | at least one worker for a plan, never more than the plan or the limit |
| Collector.DrainResults | internal/investigation/service.go:520-565 | the drain loop books arrivals as specified and returns booked results in plan order |
| CollectorConfluence.FirstIssueExactlyWhen | internal/investigation/service.go:520-556 | the issue is that of the first arrival that stops the loop: its query's, the time or the bytes so far, in this order |
| CollectorTheorems.StepConserves | internal/investigation/service.go:486-518 | no event loses, repeats or invents an index: every weighting of the indexes is conserved |
| CollectorTheorems.SchedulesEnd | internal/investigation/service.go:475-530 | every schedule is finite, with a bound given by plan and concurrency |
| CollectorTheorems.ChannelsNeverBlock | internal/investigation/service.go:484-513 | although draining starts only after the last index is fed, the feeder always finds room in the jobs channel and every worker in the results channel, both of the plan's length |
| CollectorTheorems.NeverStuck | internal/investigation/service.go:484-530 | over these bounded channels no schedule is stuck before the drain loop has ended and called cancel for its issue |
| CollectorTheorems.InFlightIsBounded | internal/investigation/service.go:489-507 | never more queries in flight than the effective concurrency |
| CollectorTheorems.GaugesReturnToZero | internal/investigation/service.go:494-512 | both gauges end where they started, cancelled or not |
| CollectorConfluence.EveryScheduleAnswers | internal/investigation/service.go:520-565 | an uncancelled collection succeeds exactly when no query fails and both totals are within budget, with all results in plan order, whatever the schedule |
| CollectorConfluence.SchedulesAgree | internal/investigation/service.go:475-566 | two schedules of the same work answer the same |
| CollectorCancellation.AnswersWhatWasNotSkipped | internal/investigation/service.go:493-565 | cancelled or not, a collection that ends without an issue answers exactly the plan without the queries passed over, in plan order |
| CollectorCancellation.AllResultsExactlyWhen | internal/investigation/service.go:493-565 | it answers all results exactly when none was passed over and none was cut short |
| CollectorCancellation.CancellationCanDropEverything | internal/investigation/service.go:493-499 | for every plan, outcomes and budget, a cancelled schedule that succeeds with no result |
| Fallback.NextIsCloser | internal/modelgateway/gateway.go:196-227 | a resolved fallback is one of the providers not yet visited, so the chain ends |
| Fallback.FallsBackExactlyWhen | internal/modelgateway/gateway.go:184-194 | a failure allows a fallback exactly when one is named and the reason is none of those that end a chain |
| ProviderEgress.ChainEndsExactlyWhen | internal/modelgateway/gateway.go:84-117 | an attempt is the last exactly when it succeeded, its error ends the chain, or no provider that was not tried before is found |
| ProviderEgress.SentExactlyWhen | internal/investigation/service.go:913-947 | the three hosted providers are sent filtered evidence, exactly when transmission and the bundle are allowed; any other is sent everything |
| ProviderEgress.FiltersEachReference | internal/investigation/service.go:1067-1082 | each reference is kept or dropped by itself: kept exactly for a listed kind, and as a log without its sample |
| ProviderEgress.KindsByName | internal/investigation/service.go:1147-1162 | a kind goes by its lower-case name, with or without observation at the end; a Kubernetes event is an event |
| ProviderEgress.ProvidersAreDistinct | internal/modelgateway/gateway.go:84-117 | no provider of a chain is tried twice |
| ProviderEgress.ChainFollowsFallbacks | internal/modelgateway/gateway.go:88-117 | each attempt but the last failed in a way that allows a fallback and the next is what it resolved to; the answer is a success exactly when the last attempt is |
| ProviderEgress.Analysis.AnalyzeWithFallback | internal/modelgateway/gateway.go:70-136 | the recursion over shared state returns the answer of the chain, a trace of its first eight attempts in order, and the evidence kept for each provider |
| ProviderEgress.FilterEvidenceRefs | internal/investigation/service.go:1067-1082 | the filter loop keeps the allowed kinds and blanks log samples |
| ProviderEgress.FilterIsIdempotent | internal/investigation/service.go:1067-1082 | what was filtered for a policy passes the same filter unchanged |
| ProviderEgress.LogsBlankedExactlyWhen | internal/investigation/service.go:1067-1082 | with log samples disallowed, every kept reference whose normalized kind is log is blanked exactly when none escapes by the way its kind is written |
| ProviderEgress.TrailingBlankEscapes | internal/investigation/service.go:1067-1082 | a kind with a trailing blank is allowed as a log and kept as it was |
| ProviderEgress.ApplyProviderDataPolicy | internal/investigation/service.go:913-947 | what is kept for a provider, and why nothing may be sent |
| ProviderEgress.AuditTellsWhatWasSent | internal/investigation/service.go:784-868 | each audited attempt digests exactly the filtered evidence of its own provider, which is what its input was built from, and its policy decision allows exactly when an input was built |
| ProviderEgress.SentIsTracedExactlyWhen | internal/modelgateway/gateway.go:119-136 | all providers that were sent an input are in the trace exactly when none beyond the eighth attempt was, and all that were tried exactly when there were at most eight |
| Classification.Merge | internal/dataclassification/classification.go:63-90 | the level of the specified join, the last given source and policy version, and the sorted set of normalized tags |
| Classification.LastSourceStays | internal/dataclassification/classification.go:74-76 | the merged source is the last one given that is not the default, and the default if none is |
| Classification.MergedRankIsTheMaximum | internal/dataclassification/classification.go:63-90 | the merged rank is the maximum of Internal and all inputs, and the level is that of an input or Internal |
| Classification.MergeIgnoresOrder | internal/dataclassification/classification.go:63-90 | rank and tags do not depend on order or repetition |
| Classification.LevelIgnoresOrderExactlyWhen | internal/dataclassification/classification.go:63-90 | the merged level is the same in every order exactly when all items of the highest rank name the same level |
| Classification.EvaluateProviderPolicy | internal/dataclassification/classification.go:117-158 | the decision in the order of its three tests, on the merged bundle |
| Classification.AllowedExactlyWhen | internal/dataclassification/classification.go:117-158 | allowed exactly when every reference is within the maximum, no tag is denied and all are redacted if required; each refusal exactly when, in their order |
| Classification.LevelsByName | internal/dataclassification/classification.go:160-173 | the four levels by name, in any case and with blanks around them; no name means internal |
| Classification.TagsByName | internal/dataclassification/classification.go:186-203 | the known tags by name, and any other as it is written |
| Classification.DeniedTag | internal/dataclassification/classification.go:236-251 | a tag is denied exactly when its normal form is one of the denied normal forms |
| Classification.AllowedForEverySubBundle | internal/dataclassification/classification.go:117-158 | what is allowed for a bundle is allowed for every part and every reordering of it |
| Verdict.BuildRCAClaims | internal/controllers/investigationrequest_controller.go:2590-2624 | the claims of summary, causes and evidence, in order and each verified |
| Verdict.RootCausesAreTheProposed | internal/controllers/investigationrequest_controller.go:1863-1887 | root-cause claims are exactly the non-blank causes and the profile claim, without the summary and the scheduling mechanism |
| Verdict.EvaluateCanonicalVerdict | internal/controllers/investigationrequest_controller.go:1764-1794 | the verdict of the counted root-cause claims |
| Verdict.ConfirmedExactlyWhen | internal/controllers/investigationrequest_controller.go:1764-1794 | Confirmed exactly when some proposed cause is supported and none is contradicted |
| Verdict.ConfidenceIsBounded | internal/controllers/investigationrequest_controller.go:1764-1794 | confidence is at most the provider's, zero unless confirmed and positive when confirmed by a provider with any |
| Verdict.ConfidenceIsTheShare | internal/controllers/investigationrequest_controller.go:1764-1794 | the confidence of a confirmed verdict is the share of supported ones among the positions that count, or the provider's if that is less |
| InvestigationStatus.Investigation.Reconcile | internal/controllers/investigationrequest_controller.go:73-166 | the in-place assignments of a pass leave exactly the specified status, and a terminal generation is left alone |
| InvestigationStatus.Investigation.ApplyExecution | internal/controllers/investigationrequest_controller.go:1413-1567 | conditions, failure and outcome of an executed investigation |
| InvestigationStatus.Investigation.ApplyBudget | internal/statusbudget/limits.go:68-102 | the budget cuts every claim statement, keeps as many claims as there is room for, and marks the status degraded exactly when it shortened something |
| InvestigationTheorems.NextIsConsistent | internal/controllers/investigationrequest_controller.go:963-1070 | whatever was carried over: Completed iff Ready iff no failure, RemediationReady iff Confirmed, a linked signal only if Confirmed |
| InvestigationTheorems.EveryVersionIsConsistent | internal/controllers/investigationrequest_controller.go:73-166 | so does every persisted version over any sequence of generations, checkpoints and crashes |
| InvestigationTheorems.EndsExactlyWhen | internal/controllers/investigationrequest_controller.go:101-166 | NoIssueFound, Inconclusive and Unknown, phase and failure code, each exactly when by loop failure, spec, gate and the issues of the stages; and what the conditions then tell |
| InvestigationTheorems.EveryEndIsOfAPass | internal/controllers/investigationrequest_controller.go:73-166 | in every run each stored end is that of a pass of the run, with outcome, failure and conditions exactly when |
| InvestigationTheorems.ConfirmedHasSupportedCause | internal/controllers/investigationrequest_controller.go:1601-1643 | a pass stores Confirmed exactly when it reaches a verdict with a supported cause and no contradicted one |
| InvestigationTheorems.ConfidenceExactlyWhen | internal/controllers/investigationrequest_controller.go:1601-1643 | only a confirmed pass stores confidence: that share, or the score out of a hundred if that is less |
| InvestigationTheorems.EndsOncePerGeneration | internal/controllers/investigationrequest_controller.go:55-71 | in every run, once a generation has ended the next version stored is of another one |
| InvestigationTheorems.StartedExactlyWhen | internal/controllers/investigationrequest_controller.go:74-81 | the start is set by the first pass of a generation, by one after an end, and kept in between |
| InvestigationTheorems.DegradedExactlyWhen | internal/statusbudget/limits.go:68-102 | a concluded investigation looks degraded exactly when its evidence is, or the budget shortened anything |
| InvestigationTheorems.LeftAloneExactlyWhen | internal/controllers/investigationrequest_controller.go:2826-2837 | a pass stores nothing exactly when its generation has ended |
| InvestigationTheorems.LinkedOnlyWhenConfirmed | internal/controllers/investigationrequest_controller.go:152-158 | a risk signal is linked only by a confirmed pass that asked for one |
| StatusBudget.TruncateUTF8 | internal/statusbudget/limits.go:19-38 | the loop keeps the specified part, counts its bytes, and tells whether anything was cut |
| StatusBudget.CutIsTheLongest | internal/statusbudget/limits.go:19-38 | what is kept fits, every longer part does not, and a text that fits is kept whole |
| InvestigationTheorems.StoredClaimsAreCut | internal/statusbudget/limits.go:77-100 | the stored claims are the first of the judged ones with their statements cut, and all of them unchanged exactly when their number and every statement fit |
| InvestigationTheorems.CauseIsShownExactlyWhen | internal/statusbudget/limits.go:77-100 | a confirmed status stores a supported counted claim exactly when the first such claim is within the room of the budget |
| InvestigationTheorems.TruncationCanHideTheCause | internal/statusbudget/limits.go:81-100 | a confirmed pass whose stored claims hold none that supports it, since that is the seventeenth |
| InvestigationTheorems.VerifiedIsCarriedExactlyWhen | internal/controllers/investigationrequest_controller.go:1480-1567 | the verification condition is of the current pass except after failed evidence collection, a failed provider or a completion without reasoning |
| InvestigationTheorems.FailedCanLookVerified | internal/controllers/investigationrequest_controller.go:1480-1497 | a failed generation can show the verification of the one before it |
| PromQL.StripQuotedContent | internal/querypolicy/syntax.go:3-26 | the in-place loop gives the blanked query of the same length |
| PromQL.PromQLFunctions | internal/querypolicy/promql.go:63-106 | the index-driven scan gives the called names, each once |
| PromQL.HasAggregatorCall | internal/querypolicy/promql.go:108-130 | an aggregator is called directly or after a by or without group |
| PromQL.MatchingParen | internal/querypolicy/promql.go:221-235 | the position that closes the group, or none |
| PromQL.HasPromQLSubquery | internal/querypolicy/promql.go:132-147 | the first bracket pair with a colon inside |
| PromQL.HasPromQLAtModifier | internal/querypolicy/promql.go:149-160 | exactly whether the query contains the sign |
| PromQL.HasWordToken | internal/querypolicy/promql.go:197-212 | exactly whether the token stands as a word of its own |
| PromQL.ValidatePromQLPolicy | internal/querypolicy/promql.go:38-57 | the decision of the tests in order on the blanked query |
| PromQLDecision.AllowedExactlyWhen | internal/querypolicy/promql.go:38-57 | a blanked query is allowed exactly when no called name is denied, all are listed if a list is given, and a colon in brackets, the word offset and @ occur only if not switched off |
| PromQLDecision.RefusalsNameACall | internal/querypolicy/promql.go:41-46 | a refusal for a function names a called name, denied or not listed |
| PromQLDecision.SubqueryExactlyWhen | internal/querypolicy/promql.go:132-147 | the scan finds a subquery exactly when a colon stands between an opening bracket and the first closing one after it |
| PromQLDecision.WordExactlyWhen | internal/querypolicy/promql.go:197-212 | the scan finds a word exactly when it stands somewhere with no identifier character beside it |
| PromQLDecision.CallsExactlyWhen | internal/querypolicy/promql.go:12-36 | which names are never calls, and which may have a group before their parenthesis |
| PromQLDecision.AggregatesExactlyWhen | internal/querypolicy/promql.go:108-130 | the parenthesis of an aggregator comes at once, or after by or without and a closed group |
| PromQLDecision.GroupsExactlyWhen | internal/querypolicy/promql.go:119-129 | that group is an opening parenthesis, as many characters as first take its level below zero, and another opening parenthesis, with blanks between |
| PromQLTheorems.LiteralsDoNotMatter | internal/querypolicy/promql.go:38-57 | replacing the content of any literal by any other that leaves it closed where it was, of any length, leaves the whole decision unchanged |
| PromQLTheorems.OpenLiteralsDoNotMatter | internal/querypolicy/promql.go:38-57 | the same for a literal left open at the end of the query |
| PromQLTheorems.OutsideStays | internal/querypolicy/syntax.go:3-26 | a character changes exactly when it is quoted or a quote |
| PromQLTheorems.OpenUntilItEnds | internal/querypolicy/syntax.go:3-26 | a literal is open as long as no quote ends it: in raw literals any quote, in others one after an even number of backslashes |
| PromQLTheorems.ClosedWhenItEnds | internal/querypolicy/syntax.go:3-26 | the first quote that ends a literal closes it |
| PromQLTheorems.StrippingIsIdempotent | internal/querypolicy/syntax.go:3-26 | stripping twice is stripping once |
| PromQLTokens.FunctionsAreTheCalledNames | internal/querypolicy/promql.go:63-106 | the functions are exactly the lower-cased non-reserved names, from the first letter or underscore of a run to its end, that are called |
| PromQLTokens.FirstsKeepMembers | internal/querypolicy/promql.go:98-103 | dropping repeats keeps the names and leaves each once |
| PromQLTokens.FirstsKeepOrder | internal/querypolicy/promql.go:98-103 | the names come in the order of their first occurrence in the scan |
| PromQLTokens.FunctionsComeInOrder | internal/querypolicy/promql.go:63-106 | the functions stand at increasing positions in the query, each where its name is called first |
| PromQLTokens.ClosesAtFirstZero | internal/querypolicy/promql.go:221-235 | a group closes at the first character that takes its level below zero |
| PromQLTokens.NeverCloses | internal/querypolicy/promql.go:221-235 | a group whose level never falls below zero does not close |

## Left out

- ApprovalProtocol.ActionIntent: the clocks of passes and of their steps are independent of each other; the code reads the one of a deletion together with the object.
- ApprovalProtocol.Initial: one plan, its one action and one Deployment; what other actions do to the Deployment counts as foreign writes. An action created anew after its deletion is a new object and not followed.
- ApprovalTheorems.LegacyEngineLimitsWhatRuns: a matched ApprovalPolicy may decide anything, its automatic approvals bearing the engine's name; policy selection and sorting, escalation chains and namespace thresholds are inputs.
- ApprovalProtocol.BackendIntent: GitOps, runbook and notification backends answer anything, and the Kubernetes backend has a client.
- ActionHistory.After: a refused dispatch uses one clock value where the code reads the clock twice.
- HistoryTheorems.EveryWriteMoves: events, metrics, messages, requeue delays and retry timing are not modelled.
- Kubernetes client, informers, owner references and garbage collection: a versioned store with stale reads and compare-and-set writes stands for them.
- SHA-256, canonical JSON and its Unicode normalization: digests are injective functions of their content; the shortened execution identity is taken as injective too.
- ShadowVerifier.VerifyReconciledCandidates: the verifier is a function parameter with one answer per claim, the rewording of two statements is part of it, and the deadline and panic wrapper is not modelled.
- EvidenceGates.DiagnosticEvidenceInventory: the resolution of target UIDs is an input.
- CollectorConfluence.EveryScheduleAnswers: durations and sizes are unbounded naturals, an empty plan is answered before the pool starts, and which of several issues is reported does depend on the schedule.
- Collector.DrainResults: what a single query does, its limits and retention, is an input.
- Classification.EvaluateProviderPolicy: the default classification of a kind and a text is a function parameter, since it searches the text for substrings.
- ProviderEgress.AuditTellsWhatWasSent: the digest stands for its references; the filters of observations and diagnostics, the audit's kinds and tags, and the separate first check of the primary provider are left out.
- ProviderEgress.Analysis.AnalyzeWithFallback: a provider and a registry exist; building and redacting the model input and calling the model are a function parameter.
- Verdict.BuildRCAClaims: which evidence backs a profile claim, which statements are about the scheduling mechanism and what the verifier says are parameters, since they search texts for substrings.
- InvestigationStatus.Investigation.Reconcile: summaries, coverage, lineage, execution records, degradation reasons and TTL deletion are left out; validation, preflight, collection and generation are inputs.
- InvestigationStatus.Investigation.ApplyBudget: how many of the cut claims fit the size of the whole status is an input, since it depends on the encoded size; bytes that are not valid UTF-8 are not modelled.
- PromQL.PromQLFunctions: letters and digits are those of ASCII, so the decoding of other characters is not modelled.
- LogQL stages, query policies of other languages, adaptive planning, detectors, ingestion, the command line and all adapters: they would add easy members or only input and output.
