# Akesis remediation pipeline: a verified model

Akesis watches CI runs, diagnoses a failure with a language model, proposes a patch, validates it in a
sandbox, asks a human for approval in Slack and, once approved, opens a pull request.  This project
models the parts of it on which the safety of that loop rests, and proves what they guarantee.

- **The approval-gated protocol** (`domain`, `repositories`, `protocol*`, `process_outcome`,
  `orchestrator`).  Webhooks, clicks on the approval card, expirations and resume tasks are concurrent
  tasks over the approvals and pipelines tables.  `Protocol` is a transition system whose steps are committed repository calls,
  calls that raise, answers of external services, and crashes; a run is any finite interleaving.
  `ProtocolInvariant` carries the inductive invariant, `ProtocolTheorems` the consequences,
  `ProtocolResume` when a scheduled resume goes on and when it is lost, `ProcessOutcome` what a failure's
  row is left as.  `Orchestrator.Server` is the code as sequential methods: each is proved to remain a run of the
  transition system under every schedule of the other tasks, so the theorems hold of it, and to leave
  exactly the rows and give exactly the answers that the services and the failing calls determine.
- **The services feeding it** (`services`).  The gates of fix synthesis and the outcome mapping of
  sandbox validation, and the end-to-end theorem: whatever interleaves, a mutation is only entered with
  a diff made from evidence of the failing commit's tree that meets the declarative acceptance predicate
  under the limits of the run, passes the thresholds and ran to exit code 0.
- **The Git mutation service** (`mutation`).  One run with every call free to fail, and any number of
  sequential runs against a GitHub that remembers pull requests; the outcome of a run is exact for
  every way its calls may turn out.
- **The unified-diff parser and the patch validator** (`diff_parser`, `diff_headers`,
  `diff_theorems`, `diff_faults`, `patch_validator`, `patch_patterns`).
  The code's index-driven loop is proved to compute a block-wise parse; about that parse: an exact
  line-by-line description of the accepted diffs and of the errors of all others, the round trip,
  re-parse stability, attribution of hunks to files.  The validator accepts exactly what a declarative
  predicate describes, and its path patterns are told by the shapes they match.
- **The diff viewer's numbering** (`diff_viewer`), against patching an old file to a new one, and for
  any text at all (`diff_headers`).
- **`$ref` inlining** (`schema`, `schema_meaning`): it ends exactly without reference cycles, leaves no
  known reference, loses no unknown one, and preserves validation for every reading of the assertion
  keywords.
- **Context retrieval** (`paths`, `path_theorems`, `context_resolver`, `context_theorems`) and **log scanning**
  (`log_parser`), over Python's string operations (`text`, `text_theorems`).

External services (language model, sandbox, Slack, GitHub, Git, the file system) are parameters that
return anything or raise.  Clock readings, the moves of other tasks and the success of each call are
parameters of the methods (`Services`, `Slot`, `Env`).

## What the proofs found

- After a rejection or an expiry the pipeline row stays AWAITING_APPROVAL for ever
  (`OnlyApprovalMovesThePipeline`, reached by `RejectionHappens`); the branch of `resume_approval` that
  would store REJECTED is never reached by a scheduled resume (`RejectBranchIsDead`), because the route
  schedules approvals only.
- An approval clicked before the AWAITING_APPROVAL write can be lost: the only resume raises, and no
  later run mutates under it although it is APPROVED (`EarlyResumeIsLost`, reached by
  `ApprovalsCanBeLost`).  It is lost exactly when the resume's lookup by incident comes before that write
  (`ResumeGoesOnIff`, `FoundRowGoesOn`).
- A third mutation run of one proposal and commit always raises, since two records match the lookup
  (`AtMostTwoAttempts`, reached by `ThirdAttemptRaises`).
- A target that still holds a CI runner prefix after normalisation is normalised once more before it is
  checked, so the validator's checks are about another path (`ProtectedTargetAccepted`).  They are about
  the target itself exactly when it holds no runner prefix and no outer whitespace
  (`CheckIsAboutTargetIff`), and so for every pushed file of that kind (`PushedFilesAreChecked`).
- The viewer misnumbers `\` markers and changed lines whose text begins with `--` or `++`
  (`DashedIsMisnumbered`), and shows a line that no file has after a final line feed; otherwise it is
  right (`ViewIsRight`).
- Inlining rewrites data that looks like a reference (`ConstKeptIff`), and lets a sibling of `$ref`
  replace the definition's assertion of that name (`SiblingReplaces`, `OverwrittenAssertion`); for
  definitions of assertions it keeps the meaning exactly when no sibling clashes (`SiblingsKeptIff`).
- The sandbox service always finds a validation command, so UNSUPPORTED is never returned (`CleanIff`).

## Model

| member | source | states |
|---|---|---|
| Repositories.Store.CreateApproval | src/packages/database/repositories.py:172-194 | Inserts exactly when neither the id nor the proposal id is taken; otherwise nothing changes |
| Repositories.Store.TryDecide | src/packages/database/repositories.py:220-243 | The compare-and-set wins exactly when the row is pending, and only then changes it |
| Repositories.Store.RecordDecision | src/packages/database/repositories.py:210-260 | A decision already stored is reported as duplicate and never rewritten |
| Repositories.Store.ExpireApproval | src/packages/database/repositories.py:262-280 | Only a pending row expires |
| Repositories.Store.CreatePipeline | src/packages/database/repositories.py:430-457 | Inserts unless the incident already has a pipeline |
| Repositories.Store.GetByApprovalId | src/packages/database/repositories.py:473-478 | The only row carrying the id, or none; the query fails exactly when several rows carry it |
| Repositories.Store.UpdatePipelineState | src/packages/database/repositories.py:480-533 | Column by column: an argument that is there is stored, a missing one keeps the value; a missing row is left missing |
| ProtocolInvariant.StepKeepsInv | src/packages/shared/remediation_orchestrator.py:152-479 | Every step of every task, crash or exception included, keeps the inductive invariant that ties tables, tasks and approvals |
| ProtocolInvariant.ReachableInv | src/packages/shared/remediation_orchestrator.py:152-479 | The invariant holds in every reachable state |
| ProtocolTheorems.OneRecordedDecision | src/packages/database/repositories.py:220-260 | At most one route call per approval is told that it recorded the decision |
| ProtocolTheorems.AtMostOneMutation | src/apps/api/routes.py:299-313 | No approval is resumed twice; no approval and no incident enters create_pull_request twice; only scheduled approvals do |
| ProtocolTheorems.MutationsAreAuthorised | src/packages/shared/remediation_orchestrator.py:373-452 | Each mutation was entered under an APPROVED row, decided by a click that read its clock no later than the expiry, with exactly the context, proposal and validation persisted for the incident, which pass the whole gate |
| ProtocolTheorems.StatusMovesForward | src/packages/shared/remediation_orchestrator.py:152-479 | A pipeline's status never moves back over any run; COMPLETED, FAILED and REJECTED are final |
| ProtocolTheorems.NoLateProcessWrite | src/packages/shared/remediation_orchestrator.py:189-347 | Once AWAITING_APPROVAL was stored, whatever became of the row since, no move of any process_failure task changes it in any run that follows |
| ProtocolTheorems.OnlyApprovalMovesThePipeline | src/packages/shared/remediation_orchestrator.py:366-443 | A pipeline at the gate stays AWAITING_APPROVAL while its approval is not APPROVED |
| ProtocolTheorems.RejectBranchIsDead | src/packages/shared/remediation_orchestrator.py:382-390 | No scheduled resume takes the reviewer-rejected branch |
| ProtocolTheorems.DecisionWrittenOnce | src/packages/database/repositories.py:210-280 | A row that left PENDING never changes again, from any state and over any run |
| ProtocolTheorems.DecisionsAreInTime | src/packages/shared/approval_service.py:166-201 | A decided row has an expiry and names its click, which read its clock no later than that |
| ProtocolTheorems.EarlyResumeIsLost | src/packages/shared/remediation_orchestrator.py:366-371 | A resume that looks its pipeline up by incident before the AWAITING_APPROVAL write raises, and no later run mutates under the approval |
| ProtocolTheorems.NeverAmbiguous | src/packages/database/repositories.py:473-478 | In no reachable state do two rows carry one approval id, so the lookup never fails for that |
| ProtocolResume.ReachableBound | src/packages/shared/remediation_orchestrator.py:312-347 | Over every run an approval of a persisted incident carries the persisted proposal id and commit, and a row with an approval id is persisted |
| ProtocolResume.ByIncidentGoesOnIff | src/packages/shared/remediation_orchestrator.py:366-443 | A resume that looks up by incident reaches the MUTATING write exactly when AWAITING_APPROVAL was stored before, and raises otherwise |
| ProtocolResume.ByApprovalGoesOnIff | src/packages/shared/remediation_orchestrator.py:360-443 | Looked up by approval id, the row is found exactly when AWAITING_APPROVAL was stored; a found row is the incident's own and always leads to the MUTATING write |
| ProtocolResume.StepIsLater | src/packages/shared/remediation_orchestrator.py:152-479 | No step of any task takes back a persisted bundle, drops an approval, changes what it asks for or touches it once it left PENDING |
| ProcessOutcome.OwnedRowStays | src/packages/shared/remediation_orchestrator.py:189-347 | While a process_failure task works on its incident no step of any other task changes the row |
| ProtocolResume.ApprovalsCanBeLost | src/packages/shared/remediation_orchestrator.py:312-371 | For every eligible proposal there is a reachable state with its approval APPROVED after which no run ever mutates under it |
| ProtocolResume.RejectionHappens | src/packages/shared/remediation_orchestrator.py:312-347 | For every eligible proposal there is a reachable state with its approval REJECTED and its pipeline AWAITING_APPROVAL |
| Orchestrator.ForeignLeavesMeAlone | src/apps/api/routes.py:51-66 | The moves of other tasks never touch a task's own position |
| Orchestrator.Server.Reaches | src/packages/shared/remediation_orchestrator.py:119-150 | Whatever the methods did, the server is in a reachable state of the protocol |
| Orchestrator.Server.ProcessFailure | src/packages/shared/remediation_orchestrator.py:152-347 | Under every schedule it stays a run and ends.  An existing row is returned as it was found.  Otherwise the incident's row in the end is exactly this, column by column, and is returned: FAILED for not fixable or no evidence, REJECTED with the proposal for an unusable one, FAILED with proposal and result for a validation that is not clean, AWAITING_APPROVAL with the whole bundle once the approval is stored, and FAILED as far as it got for any exception |
| Orchestrator.Server.Remediate | src/packages/shared/remediation_orchestrator.py:189-347 | The try block ends by itself exactly as the services' answers and the committing calls say, and with an exception otherwise |
| Orchestrator.Server.Propose | src/packages/shared/remediation_orchestrator.py:250-282 | From fix synthesis on: an unusable proposal is stored REJECTED, a usable one goes to validation, with the row exact at every end |
| Orchestrator.Server.ValidateAndAsk | src/packages/shared/remediation_orchestrator.py:284-335 | From validation on: a result that is not clean is stored FAILED with proposal and result; a clean one asks for approval before AWAITING_APPROVAL is stored |
| Orchestrator.Server.RequestApproval | src/packages/shared/approval_service.py:93-151 | Stores a pending approval with the derived id that expires ttl after the request exactly for an eligible proposal whose id and proposal id are free |
| Orchestrator.Server.HandleInteraction | src/apps/api/routes.py:297-330 | Under every schedule it stays a run.  An unknown id is not found; a pending row read after its expiry becomes EXPIRED and nothing is scheduled; otherwise the compare-and-set decides: still pending is recorded with reviewer and time, a row decided alike is a duplicate, any other is illegal.  A resume is scheduled exactly for a recorded approval |
| Orchestrator.Server.RecordDecision | src/apps/api/routes.py:299-313 | The answer and the stored row are exactly those of the row that the compare-and-set meets; scheduling only for an approval it recorded |
| Orchestrator.Server.TryDecide | src/packages/shared/approval_service.py:182-188 | Wins exactly on a row that is pending when it acts, and stores target, reviewer and time |
| Orchestrator.Server.ResumeApproval | src/packages/shared/remediation_orchestrator.py:349-479 | Under every schedule it stays a run and ends; with working reads it reaches a verdict; if AWAITING_APPROVAL was stored with a coherent bundle before it starts, the gate opens with exactly that bundle whatever the others do; it raises, and has entered the mutation, exactly as the verdict and the failing calls say |
| Orchestrator.Server.Decide | src/packages/shared/remediation_orchestrator.py:373-443 | The verdict is the gate's, in the code's order; raising, entering the mutation and the last stored status follow from it and from the calls that fail |
| Orchestrator.Server.Mutate | src/packages/shared/remediation_orchestrator.py:445-479 | The mutation is entered with the approval and bundle given; COMPLETED with the pull request's ids is stored exactly when one is returned and the write commits, else FAILED; it raises exactly when the FAILED write is due and fails |
| Services.GenerateFixProposal | src/packages/shared/fix_service.py:34-199 | A proposal is proposed exactly when the diagnosis, evidence, model and acceptance gates all pass; only then it carries the model's diff and its target set; its confidence is the model's, clamped and rounded |
| Services.RoundedStaysInside | src/packages/shared/fix_service.py:143-161 | The stored confidence lies between 0 and 1 |
| Services.RoundedIsNear | src/packages/shared/fix_service.py:143-161 | Clamping takes the nearest value in range, rounding the nearest hundredth with halves up |
| Services.CleanIff | src/packages/shared/validation_service.py:40-247 | A result is clean exactly when the usable diff ran on a checkout to exit code 0 in time; PASSED never comes with another exit code |
| Services.StatusIff | src/packages/shared/validation_service.py:40-247 | Each status of a result says exactly what happened to the checkout and to the command due for the failure; the exit code is there exactly when that command ran |
| Services.RunVetted | src/packages/shared/remediation_orchestrator.py:245-328 | Over every run whose limits, thresholds, signals and trees are fixed, what tables and tasks hold was made by the services from what that task's diagnosis step found |
| Services.MutationsAreVetted | src/packages/shared/remediation_orchestrator.py:397-452 | No run enters a mutation unless its diff was written for that incident and commit on evidence read from its tree, meets the acceptance predicate under the fixed limits, reaches the approval threshold with the model's clamped and rounded confidence, and ran in the sandbox to exit code 0 |
| Services.MutatedTargetsAreGrounded | src/packages/shared/patch_validator.py:127-181 | Every target of such a mutation, once normalised, is unprotected, in bounds, and a file of the failing commit's tree or named by the failure |
| Services.PushedFilesAreChecked | src/packages/shared/mutation_service.py:350-412 | Whatever a mutation run pushes for it: a changed file without runner prefix and outer whitespace is itself unprotected, in bounds and grounded |
| Services.ResumeGoesOnIff | src/packages/shared/remediation_orchestrator.py:366-443 | Fed by the services, a resume without a row by approval id goes on exactly when AWAITING_APPROVAL was stored before its lookup by incident |
| Services.FoundRowGoesOn | src/packages/shared/remediation_orchestrator.py:360-443 | Fed by the services, a row found by approval id always leads to the MUTATING write, and is found exactly when AWAITING_APPROVAL was stored |
| Services.PreflightNeverRefuses | src/packages/shared/mutation_service.py:164-202 | Every mutation the protocol enters passes the preflight and has an accepted branch name |
| Mutation.CleanId | src/packages/shared/mutation_service.py:148-149 | Cleaning leaves only safe characters and changes exactly the ids that have others |
| Mutation.CleanIdPlus | src/packages/shared/mutation_service.py:148-149 | Cleaning works character by character |
| Mutation.CleanIdOne | src/packages/shared/mutation_service.py:148-149 | It keeps exactly ASCII letters, digits, underscore and hyphen |
| Mutation.BranchNamesDistinct | src/packages/shared/mutation_service.py:146-151 | Distinct ids of safe characters give distinct branch names |
| Mutation.GeneratedNameValid | src/packages/shared/mutation_service.py:153-162 | A generated name is refused exactly when cleaning leaves nothing of the proposal id |
| Mutation.ValidBranchIff | src/packages/shared/mutation_service.py:153-162 | A name is accepted exactly when its characters are safe, it has no ".." and no slash at an end, and is no protected branch in any case |
| Mutation.MutationService.FindPullRequest | src/packages/shared/mutation_service.py:234-241 | Finds an open pull request of the branch pair exactly when there is one |
| Mutation.MutationService.SetStatus | src/packages/database/repositories.py:359-397 | Appends one status to one record, or changes nothing when the call raises |
| Mutation.MutationService.CreatePullRequest | src/packages/shared/mutation_service.py:204-472 | The whole outcome for any way the calls turn out: which requests are refused or served from a record, that an open pull request of fix branch into failing branch is adopted, and otherwise the stored statuses, the push and the pull request from the pushed branch into the failing branch, each exactly when its step is reached |
| Mutation.MutationService.Prepare | src/packages/shared/mutation_service.py:282-402 | Reaches VALIDATED exactly with HEAD at the approved commit, a patch that applies inside the targets and a clean revalidation; stores FAILED exactly for the refusals |
| Mutation.MutationService.Deliver | src/packages/shared/mutation_service.py:404-467 | Commit, push and pull request, each stored exactly when its call and its write work |
| Mutation.MutationService.OpenPullRequest | src/packages/shared/mutation_service.py:433-467 | PR_CREATED with its number only after the pull request is open; when every call works both happen |
| Mutation.OneOpenPullRequest | src/packages/shared/mutation_service.py:222-278 | Over any sequence of runs, with pull requests closed in between, no branch pair ever has two open ones |
| Mutation.AtMostTwoAttempts | src/packages/database/repositories.py:347-357 | One proposal and commit never has more than two records, and never more than two pull requests |
| Mutation.ThirdAttemptRaises | src/packages/database/repositories.py:347-357 | For every request that passes the preflight: two runs on a stale checkout leave two records, after which every run raises and changes nothing |
| Mutation.HistoriesAreLegal | src/packages/shared/mutation_service.py:264-467 | Stored statuses are a prefix of the path, FAILED never after VALIDATED; every push was of the record's branch and approved commit, changed only the proposal's targets, and came after a clean revalidation; every pull request is from its record's branch |
| Mutation.SuccessIsFinal | src/packages/shared/mutation_service.py:222-232 | After a success a later run of the proposal and commit changes nothing; if it returns at all it returns that record, and with two records it raises |
| Mutation.RecordsSurvive | src/packages/shared/mutation_service.py:222-278 | Later runs never change an existing record |
| Text.StripTrims | src/packages/shared/context_resolver.py:47 | Stripping leaves no outer whitespace and changes exactly the strings that have some |
| Text.SplitJoin | src/packages/shared/patch_validator.py:223-250 | Splitting undoes joining, for lines without terminators and a last line that is not empty |
| TextTheorems.CutLine | src/packages/shared/patch_validator.py:223-250 | A line, a line end, which may be two characters, and the rest are cut there |
| Text.DecimalRoundTrip | src/packages/shared/patch_validator.py:281-284 | Reading a number's digits gives the number |
| Paths.NormalizedIsSuffix | src/packages/shared/context_resolver.py:45-65 | The normalised path is an end of the slash-converted, stripped input, relative and without backslash |
| Paths.NormalizeTwice | src/packages/shared/context_resolver.py:45-65 | Normalising again changes nothing exactly when the result holds no runner prefix and no outer whitespace |
| PathTheorems.RunnerPath | src/packages/shared/context_resolver.py:45-65 | Behind the first listed runner directory that occurs, at its first place, the rest of the path is kept below the container directory |
| PathTheorems.BelowIs | src/packages/shared/context_resolver.py:52-62 | The container directory goes unless it is named like a file |
| PathTheorems.PlainPath | src/packages/shared/context_resolver.py:45-65 | A path without any runner directory only loses leading slashes |
| Paths.AcceptedPathsDescend | src/packages/shared/context_resolver.py:68-80 | A path is accepted exactly when it is relative, without ".." and NUL; it then resolves to the root followed by its real components |
| PathTheorems.AcceptedIff | src/packages/shared/context_resolver.py:68-80 | A path is accepted exactly when it is not empty, does not start with a slash and holds neither ".." nor NUL |
| DiffParser.HeaderRoundTrip | src/packages/shared/patch_validator.py:20 | Every header diff can write, counts of 1 left out or not, any section text, is read back to its four numbers |
| DiffHeaders.HeaderIff | src/packages/shared/patch_validator.py:20 | A line is accepted with four numbers exactly when it reads as such a header, with any blanks between its parts |
| DiffParser.ParseUnifiedDiff | src/packages/shared/patch_validator.py:219-330 | The loop over six pieces of state computes the block-wise parse, patches, numbers, texts and errors |
| DiffParser.TargetOfGitPair | src/packages/shared/patch_validator.py:258-263 | For the header pairs git writes the target is the file's own path: the new side's, after a rename too, and the old side's for a deletion |
| DiffParser.ReadFileHead | src/packages/shared/patch_validator.py:252-267 | Opens the next file; a missing new path is an error and keeps the previous target |
| DiffParser.ParseHunkBody | src/packages/shared/patch_validator.py:287-301 | Takes the lines up to the next header, empty lines as empty context, and reports the others with their line numbers |
| DiffTheorems.ErrorFreeIffWellFormed | src/packages/shared/patch_validator.py:219-330 | The parse reports no error exactly for the diffs that a line-by-line predicate describes |
| DiffFaults.ErrorsAreFaults | src/packages/shared/patch_validator.py:219-330 | The errors of a parse are exactly the faults of its lines, with their kinds and line numbers, in order |
| DiffTheorems.HunksBelongToNearestFile | src/packages/shared/patch_validator.py:228-330 | After an error-free parse the hunks are exactly the "@@" lines with the lines that follow them, an empty one read as empty context, in order and under the nearest header pair |
| DiffTheorems.ParseLaidOut | src/packages/shared/patch_validator.py:228-330 | Parsing laid-out patches returns them, whatever file was read before |
| DiffTheorems.RoundTrip | src/packages/shared/patch_validator.py:219-330 | Laying out any legal patches as text and parsing it returns the same patches and no error |
| DiffTheorems.ReparseStable | src/packages/shared/patch_validator.py:228-330 | After any error-free parse each patch's own text parses alone to exactly that patch |
| PatchValidator.ValidatePatch | src/packages/shared/patch_validator.py:73-217 | Valid exactly when the declarative predicate holds; each reason is given exactly when it is justified; targets, dependency flag and risk |
| PatchValidator.KeepFirst | src/packages/shared/patch_validator.py:115-120 | De-duplication keeps exactly the first occurrences, without duplicates |
| Common.DistinctInOrder | src/packages/shared/patch_validator.py:115-120 | What is kept stands in the order of first occurrence |
| PatchValidator.EarlyChecks | src/packages/shared/patch_validator.py:94-125 | Budget, syntax, block and file-count reasons, each exactly when due |
| PatchValidator.GroundedPaths | src/packages/shared/patch_validator.py:127-140 | Exactly the evidence paths and the normalised mentions of signal, frames and diagnosis |
| PatchValidator.CheckTarget | src/packages/shared/patch_validator.py:145-181 | The reasons one target gets: protected, outside or traversing, neither grounded nor existing |
| PatchValidator.CheckTargets | src/packages/shared/patch_validator.py:142-190 | The reasons over all targets, whether one is a dependency file, whether all are tests |
| PatchValidator.TargetsAre | src/packages/shared/patch_validator.py:114-125 | For an error-free diff the target list enumerates the attributed and claimed paths, and their number |
| PatchValidator.AcceptableIffUnblamed | src/packages/shared/patch_validator.py:73-217 | No reason is justified exactly when the declarative predicate holds |
| PatchPatterns.ProtectedIff | src/packages/shared/patch_validator.py:22-30 | A path is protected exactly when it has one of the listed shapes, endings in any case of their letters |
| PatchPatterns.NoProtectedTarget | src/packages/shared/patch_validator.py:145-151 | No accepted patch has a target that has one of those shapes once normalised |
| PatchPatterns.TargetOkIff | src/packages/shared/patch_validator.py:127-181 | An accepted target has none of the protected shapes, neither climbs nor starts at the root, and is an evidence path, a cleaned name that the failure gives, or a file of the checkout |
| PatchPatterns.TestIff | src/packages/shared/patch_validator.py:32-37 | A path counts as a test file exactly when it has one of the listed shapes |
| PatchPatterns.DependencyIff | src/packages/shared/patch_validator.py:39-46 | A path counts as a dependency file exactly when it has one of the listed shapes |
| PatchValidator.AcceptedTargetsAreChecked | src/packages/shared/patch_validator.py:145-181 | An accepted target without runner prefix and outer whitespace is itself unprotected, in bounds, and grounded or existing |
| PatchValidator.CheckIsAboutTargetIff | src/packages/shared/patch_validator.py:143-181 | The checks speak about the target itself, whatever the grounds and the checkout, exactly when it holds no runner prefix and no outer whitespace |
| PatchValidator.ProtectedTargetAccepted | src/packages/shared/patch_validator.py:109-181 | A patch accepted under the default limits whose target set holds a path below .git |
| DiffViewer.View | web/src/components/IncidentDetail/UnifiedDiffViewer.tsx:17-61 | Nothing for a missing or blank diff, otherwise one row for each line of the scan |
| DiffViewer.NumberLines | web/src/components/IncidentDetail/UnifiedDiffViewer.tsx:28-61 | The callback's two running counters compute the scan |
| DiffViewer.HeaderSeen | web/src/components/IncidentDetail/UnifiedDiffViewer.tsx:33-40 | The unanchored pattern reads both start lines of every header diff writes |
| DiffHeaders.FirstHeaderIff | web/src/components/IncidentDetail/UnifiedDiffViewer.tsx:35 | The numbers read are those of the leftmost place in the line that reads as a header |
| DiffHeaders.AnyLine | web/src/components/IncidentDetail/UnifiedDiffViewer.tsx:30-60 | For any line of any text: its kind by how it starts, and as numbers those of the nearest header before it plus the lines since then that take one on that side |
| DiffViewer.ViewIsRight | web/src/components/IncidentDetail/UnifiedDiffViewer.tsx:26-61 | The rows are the expected ones exactly when no line is ambiguous and the text does not end with a line feed |
| DiffViewer.NumbersAreRight | web/src/components/IncidentDetail/UnifiedDiffViewer.tsx:26-61 | For a clear diff from one file to another, every number shown is the line's own in the old or new file, strictly increasing on each side |
| DiffViewer.DashedIsMisnumbered | web/src/components/IncidentDetail/UnifiedDiffViewer.tsx:30-45 | A patch that deletes a line starting with -- applies, and the viewer gives the next line the wrong number |
| SchemaInliner.ResolveNode | src/packages/sdk/llm_client.py:66-79 | The recursion with its overwriting loop computes the inlining |
| SchemaInliner.KnownRefIs | src/packages/sdk/llm_client.py:69-71 | A reference names the definition that its text ends with after the last slash, and nothing when there is none |
| SchemaInliner.PointerInlined | src/packages/sdk/llm_client.py:69-76 | A pointer "#/$defs/name" becomes the resolved definition with the resolved siblings in the place of its fields of the same names |
| SchemaInliner.ItemsInlined | src/packages/sdk/llm_client.py:77-78 | A list keeps its length, each item resolved |
| SchemaInliner.DefsTaken | src/packages/sdk/llm_client.py:63-64 | The definitions are those under "$defs", and only that field goes |
| SchemaInliner.MoreFuel | src/packages/sdk/llm_client.py:66-79 | A result reached does not depend on how deep expansion may go |
| SchemaInliner.EndsIffAcyclic | src/packages/sdk/llm_client.py:66-79 | Inlining ends exactly when no reachable chain of references passes a definition twice; as many nested expansions as definitions suffice |
| SchemaInliner.InlinedIffAcyclic | src/packages/sdk/llm_client.py:61-81 | With object definitions the whole function returns exactly for acyclic references, and otherwise no depth is enough |
| SchemaInliner.NoTypeError | src/packages/sdk/llm_client.py:70-76 | When every definition is an object, overwriting siblings never fails |
| SchemaInliner.NoKnownRefLeft | src/packages/sdk/llm_client.py:66-79 | The result holds no reference to a known definition, at any depth |
| SchemaInliner.UnknownRefsSurvive | src/packages/sdk/llm_client.py:68-76 | Every unknown reference of the schema itself is still in the result |
| SchemaInliner.ReachedRefsSurvive | src/packages/sdk/llm_client.py:66-79 | So is every unknown reference of every definition reached, when siblings overwrite nothing that holds one |
| SchemaInliner.LiteralKeptIff | src/packages/sdk/llm_client.py:66-79 | Data is kept exactly when it holds nothing that looks like a known reference |
| SchemaInliner.DereferenceTwice | src/packages/sdk/llm_client.py:61-81 | Dereferencing the result changes nothing, exactly when it has no "$defs" of its own |
| SchemaMeaning.MeaningKept | src/packages/sdk/llm_client.py:66-79 | A node and its inlining accept the same instances, for every reading of assertions and external references, when siblings of a reference are annotations or assertions that the definition does not make with another value |
| SchemaMeaning.DereferencePreservesMeaning | src/packages/sdk/llm_client.py:61-81 | An instance validates against the dereferenced schema without definitions exactly when it validates against the original with them |
| SchemaMeaning.SiblingReplaces | src/packages/sdk/llm_client.py:72-75 | Inlining a reference with an assertion beside it replaces the definition's own assertion of that name |
| SchemaMeaning.SiblingsKeptIff | src/packages/sdk/llm_client.py:68-76 | For definitions of assertions and annotations the meaning is kept under every reading exactly when no sibling gives an assertion of the definition another value |
| SchemaMeaning.OverwrittenAssertion | src/packages/sdk/llm_client.py:72-75 | Concretely, a lower minimum beside a reference accepts instances the original refuses |
| SchemaMeaning.ConstKeptIff | src/packages/sdk/llm_client.py:66-79 | A constant keeps its meaning exactly when its value holds nothing like a known reference |
| ContextResolver.InitialCandidates | src/packages/shared/context_resolver.py:145-154 | Exactly the signal's place and the frames' places, each once, in the order in which they are named first |
| ContextResolver.PlacesAre | src/packages/shared/context_resolver.py:145-154 | The places are the signal's file and the frames that name a file, with their lines |
| ContextResolver.ReadCandidate | src/packages/shared/context_resolver.py:175-274 | The snippet of one candidate, if its file can be shown, and the candidates its imports add |
| ContextTheorems.ShownIff | src/packages/shared/context_resolver.py:175-207 | A candidate is shown exactly when its path is accepted and is a readable file within the size limit that is not empty |
| ContextTheorems.SnippetShows | src/packages/shared/context_resolver.py:209-222 | A snippet is one row for each line of the window, in order, with that line's number, mark and text |
| ContextTheorems.WindowReaches | src/packages/shared/context_resolver.py:209-213 | The window reaches half its size to both sides of a valid target line, or to the ends of the file |
| ContextResolver.FormatWindow | src/packages/shared/context_resolver.py:215-222 | Exactly the numbered lines of the window, the target marked |
| ContextResolver.DiscoverImports | src/packages/shared/context_resolver.py:252-270 | Appends the local imports not listed yet, line by line |
| ContextTheorems.ImportIff | src/packages/shared/context_resolver.py:252-262 | A stripped line imports a module exactly when it reads "from m import" or "import m" |
| ContextResolver.ResolveContext | src/packages/shared/context_resolver.py:100-287 | The worklist loop ends and goes through the candidates in order, discovered ones too, until a budget stops it; evidence and status are those of that run |
| ContextResolver.RunIsUnique | src/packages/shared/context_resolver.py:168-274 | There is one place where a run can end |
| ContextResolver.BudgetsAreKept | src/packages/shared/context_resolver.py:168-228 | At every point the file and character budgets are kept |
| ContextTheorems.StopsIff | src/packages/shared/context_resolver.py:170-228 | A run stops before a candidate exactly when the file limit is reached or its snippet would go over the character budget |
| ContextResolver.WindowIsRight | src/packages/shared/context_resolver.py:175-213 | A window lies in its file, holds a valid target line, has at most 2*(w/2)+1 lines and shows a file below the root within the size limit |
| ContextResolver.EverySnippetIsRight | src/packages/shared/context_resolver.py:170-245 | Each snippet of a run is the right window of one of its candidates |
| ContextResolver.SuccessIff | src/packages/shared/context_resolver.py:276-278 | "success" exactly when every candidate, discovered imports included, produced its snippet; "empty" exactly when none that was looked at did |
| ContextResolver.ImportsAdded | src/packages/shared/context_resolver.py:252-270 | What is appended are exactly the imported local files, each new when appended |
| ContextResolver.CandidatesAreClosed | src/packages/shared/context_resolver.py:252-270 | Over the run, the list holds the initial candidates and imports of shown files only, and every local import of a shown Python file |
| LogParser.StrippingUndoesDecoration | src/packages/shared/log_parser.py:52-54 | Stripping an interleaving of chunks and control sequences gives exactly the chunks |
| LogParser.CleanIffDecorated | src/packages/shared/log_parser.py:52-54 | No escape character is left exactly when the text is such an interleaving |
| LogParser.CleanedLogHasSingleEnds | src/packages/shared/log_parser.py:59 | The texts searched have one-character line ends |
| TextTheorems.UnixEndsReplace | src/packages/shared/log_parser.py:59 | "\r\n" and a lone "\r" become one line feed and nothing else changes |
| LogParser.ExtractSurroundingLines | src/packages/shared/log_parser.py:247-260 | The loop finds the line where the running offset reaches the position and cuts the window around it |
| LogParser.ScanStops | src/packages/shared/log_parser.py:250-256 | The search stops at the line holding the offset, or one line early exactly when that line starts there |
| LogParser.WindowHoldsOffset | src/packages/shared/log_parser.py:247-260 | At most 2*window+1 lines, which hold the offset's line exactly when the window is at least 1 or the offset is not at a line start |
| LogParser.WindowReaches | src/packages/shared/log_parser.py:257-260 | The window reaches the asked number of lines to both sides of the line where the search stops, or to the text's ends |

## Left out

- Pipelines are keyed by incident id: the primary key is "pipe_" followed by it, so it and the unique
  incident column are one constraint.
- Connection failures after a commit: a repository call either commits and returns or does neither.
- Fair scheduling: nothing says that a scheduled task ever runs; `ResumeApproval` says where it ends when
  it does.
- Calls of resume_approval from outside the route: a FAILED pipeline can be retried that way, so the
  at-most-once and final-state results are about resumes that the route schedules.
- Concurrent mutation runs: runs are sequential, and checkout returns the tree of the commit, since the
  checkout directory on disk is shared.
- Pydantic and JSON serialisation: the JSON columns hold the values themselves.
- Log and note texts, error message wording, Slack cards, signature checks, Docker, HTTP and Git
  commands, temporary directories, prompts, configuration, migrations and the read API.
- Services.GenerateFixProposal: rounding is to hundredths of a real with halves going up, where the code
  rounds a binary floating-point number.
- DiffParser.HeaderRoundTrip: digits are ASCII; Python's \d also takes other decimal digits.
- The word characters of a requirements file name are ASCII ones; Python's \w also takes other letters.
- Diffs with "diff --git" lines between files: the parser reports those lines as bad hunk lines, so the
  round trip is over plain file blocks.
- DiffViewer.View: line numbers are unbounded, where JavaScript numbers lose precision beyond 2^53.
- Symbolic links: paths resolve lexically.
- SchemaInliner.ResolveNode: a "$ref" whose value is not a string counts as unknown, where the code looks
  its Python text up among the definitions; "$defs" that is not an object counts as absent; numbers are
  integers.
- SchemaInliner.EndsIffAcyclic: Python's recursion limit also stops very deep schemas without cycles.
- SchemaMeaning.MeaningKept: the applicators are properties, items, additionalProperties, not, allOf,
  anyOf and oneOf; any other keyword is an assertion on the instance alone.
- ContextResolver.WindowIsRight: the language label of a snippet is not modelled; windows are at least 1,
  since 0 selects the default.
- The pattern-matching part of log analysis (traceback, pytest, ruff, mypy, pip patterns).
