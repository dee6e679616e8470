# durpdeploy: plan reviews, remote work leases, ordered steps, logs, bundles and budgets

This project models the parts of durpdeploy where correctness depends on several
functions or statements agreeing with each other, and proves that they do.

- **Plan review** (`JsonBytes`, `JsonScan`, `JsonGrammar`, `JsonGrammarProofs`,
  `PlanReview`, `PlanReviewProofs`, `BoundedCapture`, `PlanTree`, `PlanMeaning`,
  `PlanFields`, `SummaryNumbers`, `ReviewReader`). The hand-written
  one-pass JSON reader is a class over a byte sequence and a position, with its
  nesting counter and bounded capture buffer. Its methods are proved against
  functions from an offset to the offset after a token (`JsonScan`,
  `PlanReview`), and those against the grammar of RFC 8259, sections 2 to 7,
  written separately as syntax trees and the bytes they stand for
  (`JsonGrammar`). The closures that the Go code passes to its object and array
  readers are the constructors of `PlanReview.Item`; the variables they assign
  are `PlanReview.Frames`. `PlanTree` runs the same visitors over syntax trees
  and proves both runs equal; `PlanMeaning` says on the tree, in terms of the
  last member of each name, which texts are plans or summaries, what the gate
  counts, and which resources a preview shows.
- **Masked rendering** (`TerraformMask`, `TerraformMaskProofs`,
  `TerraformScrub`, `TerraformRender`). The renderer walks a value, its sensitivity mask and its
  unknowns side by side. What a viewer can learn is characterised exactly.
  Scrubbing secrets out of the result may come out in more than one way, so it
  is a relation, proved to allow exactly what some order of members produces.
- **Remote work leases** (`LeaseTables`, `LeaseProtocol`, `LeaseProofs`,
  `LeaseRuns`, `LeaseTransactions`, `LeaseStore`, `LeaseEffects`, `LeaseTimes`). Step runs and
  whole-deployment claims are two tables with rows of one shape; every SQL
  statement that writes them is a value with a guard and assignments, taken
  from the query text. An action is one statement, or one of the transactions
  that run several: revoking an agent, deleting it, pairing it again, and
  startup recovery. Theorems are about every finite run of actions, with no
  assumption on clocks or on who calls what, beyond those listed below. The
  transactions also exist as methods of a database object that executes
  statements one at a time, loops over claims and rolls back.
- **Deployment queue** (`DeploymentQueue`), **ordered steps with retries**
  (`DeploymentSteps`), **log metadata index** (`DeploymentLogs`), **approval
  bundles** (`GateBundle`), **limits** (`ResourceLimits`) and **the build cache**
  (`GoCache`).

## Parameters and assumptions

- Decoding captured bytes into a value (`decode`, `decodeText`, `unquote`), the
  scrubber of a text, the indented JSON printer, the checksum and UTF-8 validity
  are function parameters; nothing is assumed about them. The renderer of a
  resource is one too, and may answer differently every time it is called.
- `GateBundle.Thorough` (a review parser that accepts has read to the end) is a
  hypothesis of the bundle theorems, and is proved of the parsers of both formats.
- What lease statements read from tables outside the model (deployment slots,
  capabilities, the eligibility view, local steps) is an argument of the
  statement and may be anything.
- Rows are inserted as `waiting` with null timestamps, and claim tokens are
  fresh. Results of finished work are `succeeded`, `failed` or
  `cleanup_unconfirmed`: the whole-deployment query checks that itself, its
  caller checks it for step runs (internal/repository/remote_step_execution.go:60).
- Revocation, deletion, pairing again and recovery each run in one transaction
  (internal/repository/agent_admin.go:65-128, internal/repository/agent_delete.go:18-78,
  internal/repository/pairing_transactions.go:130-188, cmd/server/main.go:390-417).
  Status `revoked` is only ever written by the revocation.
- Deployment writers other than those the theorems are about are one statement,
  `WriteDeployment`, that may write anything.

## Where the code differs from what one might expect

- A number commits to its longest reading: `1.x` is refused although `1` is a
  JSON value. `JsonGrammarProofs.NumberPrefixRefused` is that input, and
  `JsonGrammarProofs.ScanIsGrammar` gives the exact condition: the byte after a
  number must not continue it. For whole inputs no condition is needed.
- A string byte of 0x80 or above is accepted unchecked, so section 7 is read
  over bytes and not over characters.
- Scrubbing an object is not a function of the object. When two of its keys
  scrub to the same text the member visited last stays, and members are visited
  in no fixed order: `TerraformScrub.OrderDecides` and
  `TerraformRender.TwoRenderings` are an object keyed by two tokens.
  `TerraformScrub.DeterminedExactly` says exactly when the outcome is one, and
  `TerraformScrub.KeysApart` is the case to check key by key.
- A container may be `null` wherever the plan expects an object or array.

## Model

| member | source | states |
|---|---|---|
| JsonGrammarProofs.ScanIsGrammar | internal/artifact/review_json.go:90-115 | skipping finds a value of this extent and height exactly when, after white space, an RFC 8259 value with those bytes and that nesting stands there and the next byte does not continue a number |
| JsonGrammarProofs.NumberPrefixRefused | internal/artifact/review_json_scalar.go:93-110 | `1.x` starts with a JSON value and is refused |
| JsonGrammarProofs.DocumentIsGrammar | internal/artifact/review_json.go:90-167 | skip followed by finish accepts exactly the JSON texts nested at most 10000 deep, over every byte sequence |
| JsonGrammarProofs.ValueComplete | internal/artifact/review_json_container.go:11-40 | every rendered syntax tree is consumed to its end with its own height |
| JsonGrammarProofs.ValueSound | internal/artifact/review_json_container.go:11-40 | whatever is consumed is the rendering of a syntax tree |
| ReviewReader.ReviewJSON.Read | internal/artifact/review_json.go:26-36 | one byte is consumed; the capture buffer takes it, or is truncated exactly when it would exceed its limit |
| ReviewReader.ReviewJSON.Enter | internal/artifact/review_json.go:78-88 | one level deeper, refused beyond 10000, truncating a capture exactly when it nests too deeply |
| ReviewReader.ReviewJSON.Number | internal/artifact/review_json_scalar.go:68-91 | succeeds exactly on the longest number at this position, consumes exactly it, and leaves depth and visitors alone |
| ReviewReader.ReviewJSON.StringAtom | internal/artifact/review_json_scalar.go:134-165 | consumes exactly one unit of a string, the closing quote being 0 bytes long |
| ReviewReader.ReviewJSON.StringToken | internal/artifact/review_json_scalar.go:10-42 | consumes exactly the string; with a limit returns the decoded longest prefix of whole units and whether units were cut |
| ReviewReader.ReviewJSON.Skip | internal/artifact/review_json.go:90-115 | succeeds exactly when a value stands here within the depth ceiling, consumes exactly it, and the capture buffer follows the bytes read |
| ReviewReader.ReviewJSON.Container | internal/artifact/review_json_container.go:11-40 | runs the visitor over every item exactly as the specification does, restoring the depth |
| ReviewReader.ReviewJSON.Separator | internal/artifact/review_json_container.go:42-57 | white space, then the closing byte, or a comma with input after it |
| ReviewReader.ReviewJSON.Member | internal/artifact/review_json_container.go:59-81 | a name bounded to 256 bytes, a colon, and the value given to the visitor under that name, empty if it was cut |
| ReviewReader.ReviewJSON.DecodePreview | internal/artifact/review_json.go:117-138 | validates the whole value, reports omission exactly beyond the byte limit or 64 further levels, and otherwise returns exactly its bytes |
| ReviewReader.ReviewJSON.ResourceValue | internal/artifact/review_stream.go:137-168 | stores or marks as omitted exactly the field this member names |
| ReviewReader.ReviewJSON.ResourceAddress | internal/artifact/review_stream.go:170-186 | null leaves the address alone, a string is stored or replaced by the placeholder, anything else fails |
| ReviewReader.ReviewJSON.Version | internal/artifact/review_stream.go:16-28 | a bounded string, or null, which leaves the target alone |
| ReviewReader.ReviewJSON.ActionList | internal/artifact/review_actions.go:10-46 | the actions of one resource replace its counts, validity and list |
| ReviewReader.ReviewJSON.Resource | internal/artifact/review_stream.go:76-96 | one resource is read and counted, then kept, omitted or only counted |
| ReviewReader.ReviewJSON.TerraformPass | internal/artifact/review_stream.go:30-57 | succeeds exactly when the plan is well formed, versioned and valid; with a renderer only for format 1 |
| ReviewReader.ReviewJSON.Integer | internal/artifact/review_json.go:140-156 | validates the value and returns it exactly when it is an integer literal of 64 bits in at most 32 bytes |
| ReviewReader.ReviewJSON.SummaryNumber | internal/artifact/gate_review.go:35-58 | one member of a summary records null or an integer under its name; an unknown name fails |
| ReviewReader.ReviewJSON.SummarizePass | internal/artifact/gate_review.go:31-70 | succeeds exactly when the specification accepts the summary |
| ReviewReader.ReviewJSON.Finish | internal/artifact/review_json.go:158-167 | only white space is left |
| ReviewReader.ParseGateReview | internal/artifact/gate_review.go:10-29 | answers with these counts exactly when the bytes are the JSON text of a plan, or of a summary, that means these counts |
| ReviewReader.TerraformPreview | internal/artifact/terraform_review.go:54-76 | the changes returned are renderings, in order, of resources of the plan the bytes are the text of, and with the omitted ones they are all of them |
| PlanReviewProofs.ItemSkips | internal/artifact/review_stream.go:30-186 | whatever a visitor does with an item, it ends at the byte and the depth where plain skipping ends |
| PlanReviewProofs.AcceptedIsJson | internal/artifact/gate_review.go:10-29 | a plan that either pass accepts is a JSON text |
| PlanReviewProofs.PreviewImpliesGate | internal/artifact/review_stream.go:30-186 | when the preview pass succeeds so does counting, at the same byte and with the same counts, whatever was omitted |
| PlanReviewProofs.SettleAccounts | internal/artifact/terraform_preview.go:23-37 | keeping or omitting one resource keeps the accounting |
| PlanReviewProofs.SummarySkips | internal/artifact/review_json.go:140-156 | a summary number ends where skipping the value ends, and is never a container |
| PlanTree.ItemsIsTree | internal/artifact/review_json_container.go:11-81 | running any visitor over the bytes of a container is running it over its syntax tree, to the same end, height and result |
| PlanTree.StringIsTree | internal/artifact/review_json_scalar.go:10-42 | names and bounded strings read from bytes are those of the tree |
| PlanMeaning.NamesExactly | internal/artifact/review_stream.go:7-14 | a key is taken for a name exactly when, with letter case removed (ASCII capitals, U+017F, U+212A), it is that name; for all ten names |
| PlanFields.NameFits | internal/artifact/review_json_container.go:59-81 | a member is visited under its own name exactly when that takes at most 257 bytes with its quotes, else under none |
| PlanFields.ResourceKeepsLast | internal/artifact/review_stream.go:106-186 | a resource read for the preview holds under each of the five names the last value so named, left out beyond 64 KiB or 64 levels, and the last address and list of actions |
| SummaryNumbers.LiteralsReadBack | internal/artifact/review_json.go:140-156 | every 64-bit integer is read back from its decimal literal |
| SummaryNumbers.NumbersExactly | internal/artifact/review_json.go:140-156 | a member of a summary reads as a number exactly when it is that number's decimal literal, or minus zero for 0 |
| PlanMeaning.ActionsMeaning | internal/artifact/review_actions.go:10-46 | an actions value is accepted exactly when it is null or a list of strings and nulls; each kind is counted exactly, an unknown one makes it invalid, the first 16 are listed |
| PlanMeaning.EntryMeaning | internal/artifact/review_stream.go:106-186 | a resource is read exactly when its members have the right shapes; the last actions of its changes are counted, and with details the last of each field is kept |
| PlanMeaning.GateIsMeaning | internal/artifact/review_stream.go:30-97 | for every JSON text the gate's answer for a plan is the meaning of its tree: shapes, a last version, known actions, and every kind totalled over the last resource_changes array |
| PlanMeaning.GateAcceptsExactly | internal/artifact/gate_review.go:10-29 | over all bytes: these counts exactly for the texts of plans with these totals |
| PlanMeaning.SummaryIsMeaning | internal/artifact/gate_review.go:31-70 | for every JSON text the gate's answer for a summary is the last number of each of the four names, refused exactly for no member, another name, null or negative last, or no integer |
| PlanMeaning.SummaryAcceptsExactly | internal/artifact/gate_review.go:31-70 | over all bytes: these counts exactly for the texts of such summaries |
| PlanMeaning.PreviewConserved | internal/artifact/review_stream.go:59-97 | for every plan text of format 1: the changes shown render, in order, the resources of the last array; one is left out only when 100 are shown, or 1 MiB of text is reached or would be exceeded with it; retained plus omitted is the length, truncated exactly when something was left out |
| PlanMeaning.PreviewCountsAll | internal/artifact/review_stream.go:30-97 | whatever a preview omits, the gate counts every resource of the same plan |
| BoundedCapture.CaptureExact | internal/artifact/review_json.go:117-138 | what is captured is exactly one grammar value of the input; omitted exactly when its rendering is too long or too deep |
| BoundedCapture.PrefixLongest | internal/artifact/review_json_scalar.go:10-42 | what is kept is itself a string of the grammar, the longest prefix of whole units that fits; cut exactly when a unit is missing |
| TerraformMask.TerraformValue | internal/artifact/terraform_review.go:79-100 | computes what the mask shows |
| TerraformMask.TerraformObject | internal/artifact/terraform_review.go:102-127 | the same object in whatever order the members are visited |
| TerraformMask.TerraformArray | internal/artifact/terraform_review.go:129-156 | the elements in order, or redacted when a mask has another length |
| TerraformMaskProofs.Noninterference | internal/artifact/terraform_review.go:79-156 | values that agree where the mask is clear, and are nil in the same masked places, render identically whatever is unknown |
| TerraformMaskProofs.Revealed | internal/artifact/terraform_review.go:79-156 | the converse: values that render alike agree everywhere the mask is clear |
| TerraformMaskProofs.VisibleExactly | internal/artifact/terraform_review.go:79-156 | two values look alike under every unknown tree exactly when they agree on the unmasked data |
| TerraformMaskProofs.ClearIsIdentity | internal/artifact/terraform_review.go:93-99 | a clear mask changes nothing |
| TerraformMaskProofs.ScalarsAreClear | internal/artifact/terraform_review.go:79-156 | every scalar shown is nil, a marker, or the scalar at the same path, where the mask is clear |
| TerraformMaskProofs.MarkersExactly | internal/artifact/terraform_review.go:79-156 | at every path shown: a marker or nil under a full mask, the unknown marker where a value is not known, a container with all its members exactly when its masks fit, a scalar exactly when its mask is clear, else redacted |
| TerraformScrub.ScrubValue | internal/artifact/terraform_review.go:158-178 | the walk, members in any order, gives an outcome the relation allows |
| TerraformScrub.ScrubbedExactly | internal/artifact/terraform_review.go:158-178 | the relation allows exactly what walking every object in some order of its keys produces |
| TerraformScrub.ScrubbedIsClean | internal/artifact/terraform_review.go:158-178 | every text left in an outcome, keys included, came out of the scrubber, and every number is one it leaves alone |
| TerraformScrub.CleanStays | internal/artifact/terraform_review.go:158-178 | a clean tree stays as it is |
| TerraformScrub.DeterminedExactly | internal/artifact/terraform_review.go:165-171 | the outcome is the same in every order exactly when, at every object, members whose keys scrub alike have values that scrub alike |
| TerraformScrub.KeysApartAreCoherent | internal/artifact/terraform_review.go:165-171 | it is when no object has two keys that scrub alike |
| TerraformScrub.OrderDecides | internal/artifact/terraform_review.go:165-171 | an object keyed by two tokens has two outcomes, each with one member of the two |
| TerraformRender.RenderTerraformResource | internal/artifact/terraform_preview.go:50-84 | a possible rendering, with the fields to list as omitted in their fixed order |
| TerraformRender.PossibleExactly | internal/artifact/terraform_preview.go:50-110 | a change renders a resource exactly when its address is the scrubbed address, its actions the same, each side the scrubbed and printed visible value or the placeholder, and the fields listed those that are incomplete, in order |
| TerraformRender.AddressesScrubAlike | internal/artifact/terraform_preview.go:54-57 | addresses that scrub alike cannot be told apart in any rendering |
| TerraformRender.MaskedDataStaysOut | internal/artifact/terraform_preview.go:50-110 | resources that differ only in masked data have the same possible renderings, for every scrubber and printer |
| TerraformRender.CoherentRendersOnce | internal/artifact/terraform_preview.go:50-110 | when scrubbing either side cannot depend on the order, the rendering is determined |
| TerraformRender.TwoRenderings | internal/artifact/terraform_preview.go:50-110 | a resource keyed by two tokens has two different renderings, neither listing anything as omitted |
| TerraformRender.OmissionsAreListed | internal/artifact/terraform_preview.go:69-110 | in every possible rendering each side is at most 64 KiB, a field is listed exactly when its text is the placeholder or it was marked, and nothing marked goes unlisted |
| TerraformRender.ShownChangesArePossible | internal/artifact/terraform_review.go:54-76 | every change a preview shows is a possible rendering of a resource of the plan |
| LeaseProtocol.UpdatedSteps | internal/db/remote_steps.sql.go:13-677 | whatever one statement does to a row: ranks, tokens, who may come to hold an agent, who may start, who may confirm |
| LeaseProtocol.WrongTokenChangesNothing | internal/db/remote_steps.sql.go:393-399 | a lifecycle statement with another token than the row's changes no row |
| LeaseProofs.ApplyShaped | internal/db/agent_dispatch.sql.go:63-102 | every statement keeps row shapes, unique tokens, one claim per deployment and one held deployment per agent |
| LeaseProofs.InvNext | internal/db/agents.sql.go:507-604 | every action, transactions included, keeps the invariant |
| LeaseProofs.InvRun | internal/db/remote_steps.sql.go:13-677 | the invariant holds in every state of every run |
| LeaseProofs.RevokeFinds | internal/db/agents.sql.go:558-590 | of the two revoke statements, the one chosen by the start time always finds a live claim and settles it |
| LeaseProofs.RevokeSplits | internal/db/agents.sql.go:537-701 | a revocation is rolled back exactly when some live claim's deployment can no longer be terminated |
| LeaseProofs.RevokeKeeps | internal/db/agents.sql.go:537-604 | after a revocation nothing of the agent is live and no row anywhere became live |
| LeaseRuns.RanksNeverDrop | internal/db/remote_steps.sql.go:13-69 | while a row lives its rank never drops, only waiting and claimed alternate, terminal states are final |
| LeaseRuns.StartedOnce | internal/db/remote_steps.sql.go:633-646 | a step run or claim is started at most once |
| LeaseRuns.SupersededTokenIsDead | internal/db/remote_steps.sql.go:44-69 | once a row has lost a token, no statement presenting it changes any row, in every later state |
| LeaseRuns.TokensAreUnique | internal/db/agent_dispatch.sql.go:63-102 | no two rows carry the same token |
| LeaseRuns.OneDeploymentPerAgent | internal/db/agent_dispatch.sql.go:86-89 | at most one whole deployment is claimed, started or cancel_requested per agent |
| LeaseRuns.NoClaimWhileCleanupIsOpen | internal/db/agent_dispatch.sql.go:96-101 | from unconfirmed cleanup to its confirmation no row of either table moves to claimed for that agent |
| LeaseRuns.RepairExactlyWhenQuiescent | internal/db/agents.sql.go:507-522 | a revoked agent that has a pairing can be paired again exactly when none of its rows is live, lost, cancel_unconfirmed or unacknowledged |
| LeaseTimes.ClaimThenStart | internal/db/remote_steps.sql.go:633-646 | a claim sets state, token and lease, and then only its own token starts it, and only before expiry |
| LeaseTimes.StartsWithinItsLease | internal/db/remote_steps.sql.go:633-646 | in every run, work starts only by the token of the claim it was given, before that claim expires, having been claimed by it ever since |
| LeaseTimes.HeartbeatsKeepTheLease | internal/db/remote_steps.sql.go:588-593 | in every run, work whose heartbeat came at some time is not lost while no cutoff reaches that time, whatever else happens short of revoking its agent |
| LeaseTimes.CancelledForGood | internal/db/agent_dispatch.sql.go:735-745 | in every run, once both cancellation statements ran for a deployment, none of the rows it had is waiting, claimed or started in any later state |
| LeaseTimes.FirstReportIsFinal | internal/db/agent_dispatch.sql.go:351-372 | in every run, work under way or given up reports with its own token exactly while it is awaited, and what it reports first never changes |
| LeaseTimes.ExpiredTokenIsDead | internal/db/remote_steps.sql.go:190-196 | in every run, a claim whose lease ended is waiting again and nothing its token says is heard any more |
| LeaseTimes.LostOnlyWhenSilent | internal/db/remote_steps.sql.go:588-593 | in every run, started work is lost only to a cutoff at or after its last heartbeat, or with its agent |
| LeaseEffects.ClaimsExactly | internal/db/agent_dispatch.sql.go:63-102 | a waiting row is claimed exactly by an active, undrained agent without open cleanup and, for whole deployments, paired, assigned and holding nothing else |
| LeaseEffects.FinishesExactly | internal/db/remote_steps.sql.go:267-275 | a report with the row's own token sets state and time exactly when the row is started, lost or cancel_unconfirmed (or cancel_requested, with unconfirmed cleanup) and awaited |
| LeaseEffects.HeartbeatsExactly | internal/db/agent_dispatch.sql.go:452-464 | a heartbeat counts exactly for work under way from its own token, for whole claims on a paired agent and never backwards |
| LeaseEffects.ExpiresExactly | internal/db/agent_dispatch.sql.go:223-253 | a claim goes back to waiting, without its token, exactly when its lease has ended |
| LeaseEffects.LosesExactly | internal/db/agent_dispatch.sql.go:684-720 | started work is lost, with its buffered logs, exactly when its last heartbeat is not after the cutoff |
| LeaseEffects.UnansweredExactly | internal/db/agent_dispatch.sql.go:172-201 | a cancellation unanswered at the cutoff becomes unconfirmed, and no other row does |
| LeaseEffects.AcknowledgesExactly | internal/db/agent_dispatch.sql.go:13-20 | an acknowledgement with the row's own token settles a cancellation, however late |
| LeaseEffects.RevokesExactly | internal/db/agents.sql.go:537-590 | of the agent's rows what waits fails and what was under way is lost, a claimed whole deployment fails, and ended rows stay |
| LeaseEffects.RevokedDeploymentsFail | internal/db/agents.sql.go:694-701 | after a revocation the deployment of every claim it settled is failed |
| LeaseEffects.FailsTerminalExactly | internal/db/deployments.sql.go:251-270 | an unassigned deployment whose runs have all ended, one badly, is failed, or cleanup_unconfirmed exactly when some cleanup is |
| LeaseEffects.RecoveryStatuses | cmd/server/main.go:390-417 | recovery fails every unassigned deployment under way without a cancelled run to wait for, or makes it cleanup_unconfirmed when it has local containers no run may be using, and changes no other |
| LeaseEffects.RecoversExactly | internal/db/deployments.sql.go:13-28 | waiting runs of orphaned running deployments end, the others are asked to cancel, an earlier request keeps its time |
| LeaseEffects.RunsCreatedExactly | internal/db/remote_steps.sql.go:138-155 | step runs appear, waiting and blank, for exactly the chosen agents of a running deployment, and none is replaced |
| LeaseEffects.ClaimCreatedExactly | internal/db/agent_dispatch.sql.go:144-151 | a deployment gets a claim for its assigned agent exactly while it is pending and has none |
| LeaseEffects.AgentMovesExactly | internal/db/agents.sql.go:507-664 | an agent becomes active only by a completed pairing or by being enabled again, and a revoked one only starts over |
| LeaseEffects.BlocksExactly | internal/db/deployment_queue.sql.go:156-179 | a deployment blocks its queue exactly when it is under way, has unconfirmed cleanup, or has rows that are live or given up |
| LeaseEffects.DeletedRowsAreSettled | internal/db/agent_deletion.sql.go:51-63 | with a deleted agent go only rows that ended or waited, with cleanup acknowledged and no buffered logs |
| LeaseEffects.DeletedAgentsAreUnreferenced | internal/db/agent_deletion.sql.go:26-41 | no deployment that is not settled refers to a deleted agent by assignment, row or attempt |
| LeaseTimes.ConfirmationFreesTheAgent | internal/db/remote_steps.sql.go:97-101 | confirming both tables leaves exactly this agent without open cleanup |
| LeaseTransactions.PurgeLeavesQueuesAlone | internal/db/agent_deletion.sql.go:51-179 | deleting an agent without blockers leaves every queue's blockers and every deployment's unconfirmed cleanup unchanged |
| LeaseTransactions.CleanupIsPreserved | internal/db/agent_deletion.sql.go:166-179 | confirmed cleanup that leaves with the agent stays confirmed on the deployment |
| LeaseTransactions.RevokeAddsNoBlockers | internal/db/agent_deletion.sql.go:51-63 | revoking first adds no blocker |
| LeaseTransactions.DeletionLeavesQueuesAlone | internal/db/agent_deletion.sql.go:26-179 | the whole deletion changes queues and cleanup by what the revocation changes and no more, and no row of the agent is left |
| LeaseTransactions.RecoverySettles | cmd/server/main.go:390-417 | after recovery every unassigned running or publishing deployment has a cancel_requested run, and a running one no waiting, claimed or started run |
| LeaseTransactions.RecoveryIsIdempotent | cmd/server/main.go:390-417 | recovering again changes nothing but the time rows were touched |
| LeaseStore.SettleOne | internal/db/agents.sql.go:558-701 | one claim's two statements, on top of those already settled, settle it too; each count is zero exactly when its guard fails |
| LeaseStore.Database.RevokeAgent | internal/repository/agent_admin.go:67-128 | claim by claim, in any order, with rollback, to exactly the specified tables |
| LeaseStore.Database.DeleteAgent | internal/repository/agent_delete.go:18-78 | deletes exactly when nothing blocks it, and otherwise changes nothing |
| LeaseStore.Database.ResetRevokedPairing | internal/repository/pairing_transactions.go:130-171 | pairs again or rolls back |
| LeaseStore.Database.RecoverPendingDeployments | cmd/server/main.go:390-417 | afterwards every unassigned running or publishing deployment has a cancel_requested run, and a running one no waiting, claimed or started run |
| DeploymentQueue.PositionsAreABijection | internal/db/deployment_queue.sql.go:75-96 | positions number the queued deployments of a scope 1 to n, each once, in creation and id order |
| DeploymentQueue.NextIsFirst | internal/db/deployment_queue.sql.go:141-147 | the next-queued query returns exactly the deployment at position 1 |
| DeploymentQueue.OnlyQueuedHavePositions | internal/db/deployment_queue.sql.go:76-83 | a deployment has a position exactly while it is queued |
| DeploymentQueue.AdmissionMovesUp | internal/db/deployment_queue.sql.go:13-15 | admitting any queued deployment moves up by one exactly those behind it |
| DeploymentQueue.AdmittingTheNext | internal/db/deployment_queue.sql.go:13-15 | admitting the next lowers every other position of the scope by exactly one and no position elsewhere |
| DeploymentQueue.AdmissionMakesPending | internal/db/deployment_queue.sql.go:13-15 | admission makes a queued deployment pending, once, and touches nothing else |
| DeploymentSteps.AttemptNumbers | internal/db/deployment_steps.sql.go:95-109 | the attempts of a step are numbered exactly 1 to n, with n at most the retries plus one |
| DeploymentSteps.LastDecides | internal/db/deployment_steps.sql.go:107-108 | of two attempts of a step the earlier one failed |
| DeploymentSteps.SucceededStepsFormAPrefix | internal/db/deployment_steps.sql.go:102-104 | when a step succeeded so did every earlier one |
| DeploymentSteps.CreatableExactlyAtCursor | internal/db/deployment_steps.sql.go:249-255 | an attempt can be created exactly for the cursor step, with the next number, while retries are left and its last attempt failed |
| DeploymentSteps.CursorOrDone | internal/db/deployment_steps.sql.go:133-139 | the completion condition holds exactly when the cursor query is empty |
| DeploymentSteps.CreateSpends | internal/db/deployment_steps.sql.go:95-109 | each attempt lowers the remaining budget by one, and the budget is never negative |
| DeploymentSteps.AttemptCycle | internal/db/deployment_steps.sql.go:149-155 | a finished attempt moves the cursor on when it succeeded, and otherwise leaves a next attempt exactly while retries are left |
| DeploymentSteps.PlanStore.CreateDeploymentStep | internal/db/deployment_steps.sql.go:35-45 | steps are added only before any attempt, and the plan stays valid |
| DeploymentSteps.PlanStore.FreezeDeploymentStepSource | internal/db/deployment_steps.sql.go:181-186 | freezes the steps before the start, and the plan stays valid |
| DeploymentSteps.PlanStore.CreateDeploymentStepAttempt | internal/db/deployment_steps.sql.go:95-109 | inserts only for the cursor, spends one of the budget, keeps the plan valid |
| DeploymentSteps.PlanStore.StartLocalDeploymentStep | internal/db/deployment_steps.sql.go:423-430 | starts a waiting local attempt before its deadline, keeping validity and budget |
| DeploymentSteps.PlanStore.FinishLocalDeploymentStep | internal/db/deployment_steps.sql.go:149-155 | finishes a started attempt, keeping validity and budget |
| DeploymentSteps.PlanStore.FinishCompletedDeployment | internal/db/deployment_steps.sql.go:133-139 | the deployment is succeeded exactly when it was pending or running and there is no cursor |
| DeploymentSteps.StartsExactly | internal/db/deployment_steps.sql.go:423-430 | an attempt starts exactly when it waits, is local and in time, in a pending or running deployment |
| DeploymentSteps.StepsStay | internal/db/deployment_steps.sql.go:35-45 | once frozen, attempted or under way the steps of a deployment stay as they are |
| DeploymentLogs.LogTable.CreateDeploymentLog | internal/db/deployment_logs.sql.go:13-24 | the row is flagged exactly when it is the first of its group; the index stays valid |
| DeploymentLogs.LogTable.CreateRemoteDeploymentLog | internal/db/deployment_logs.sql.go:72-81 | the same for lines without a step |
| DeploymentLogs.LogTable.CreateStepDeploymentLog | internal/db/deployment_logs.sql.go:105-119 | flagged exactly when it carries a state or is the first of its group |
| DeploymentLogs.FlaggedMeansAny | internal/db/deployment_logs.sql.go:13-24 | looking for a flagged row of a group finds one exactly when the group has any row |
| DeploymentLogs.IndexReplacesTheScan | internal/db/deployment_log_pages.sql.go:86-99 | up to any id the query returns, in order, what a scan over every line returns |
| DeploymentLogs.ListedExactly | internal/db/deployment_log_pages.sql.go:86-99 | the rows listed are exactly those selected, by strictly increasing id |
| DeploymentLogs.EachGroupOnce | internal/db/deployment_log_pages.sql.go:86-99 | every group of the page is listed exactly once, by its latest row with a state, else its first row, with its text only when that is the line asked for |
| GateBundle.CopyGateBundle | internal/artifact/gate_bundle.go:65-115 | the loop computes the specified bundle, checksum and review, or fails |
| GateBundle.CopyIsIdempotent | internal/artifact/gate_bundle.go:65-154 | accepted output is copied again to itself with the same checksum and review, has distinct canonical names, and passes the node check under the same limit |
| GateBundle.CopyKeepsContent | internal/artifact/gate_bundle.go:65-206 | every entry but the root is kept in order under its trimmed name with its kind, every byte, mode 0755 exactly for directories and executables and else 0644, owned by nobody |
| GateBundle.AcceptsExactly | internal/artifact/gate_bundle.go:65-154 | an archive is accepted exactly when each entry but the root can be copied, no two share a path, they fit the limit, and the artifact and another, the review, are among them |
| GateBundle.ValidExactly | internal/artifact/gate_bundle.go:126-129 | a name passes exactly when it is elements, none empty or "." or "..", joined by single slashes |
| GateBundle.TrimmedFrom | internal/artifact/gate_bundle.go:122-125 | the spellings of a path are itself, with "./" before, with "/" after, or both, and nothing else |
| GateBundle.ResultsAreOfTheFiles | internal/artifact/gate_bundle.go:165-206 | the checksum and review are those of the files at the two paths, and a path that is both never yields a checksum |
| GateBundle.CanonicIsFixed | internal/artifact/gate_bundle.go:117-154 | a canonical entry is its own canonical form |
| GateBundle.HeaderIsCanonic | internal/artifact/gate_bundle.go:117-154 | an accepted header is canonical, new, and within the limit |
| GateBundle.GateParseIsThorough | internal/artifact/gate_review.go:10-29 | in either format the parser reads all it accepts, so a review written while it is parsed is complete |
| GateBundle.ValidateGateBundleNodes | internal/artifact/gate_bundle.go:19-43 | accepts exactly archives of at most the limit, and the empty one |
| ResourceLimits.Validate | internal/config/validate.go:15-104 | in 64-bit arithmetic that cannot overflow, accepts exactly the limits acceptable in unbounded arithmetic |
| ResourceLimits.ValidateCapacity | internal/config/validate.go:76-104 | accepts exactly when the CPU share is a representable number of billionths and download plus tmpfs, bytes plus entries times page plus overhead, and twice entries plus two are representable |
| ResourceLimits.NumbersAreExact | internal/config/validate.go:25-42 | the range checks mean that a limit plus one fits an int and seconds fit a duration in nanoseconds |
| ResourceLimits.NumbersAreFields | internal/config/validate.go:15-23 | the numbers checked are the fields of every record, each with its own range |
| ResourceLimits.RelationshipsAreExact | internal/config/validate.go:44-74 | the division in the page check is exact: eighteen times a line plus 2048 fits the page |
| ResourceLimits.ThreeFieldsFitAPage | internal/config/validate.go:67-72 | three fields of at most a line each, whatever units of RFC 8259 section 7 an encoder writes for their bytes, fit a page with 2048 bytes to spare |
| ResourceLimits.SixBytesAreNeeded | internal/config/validate.go:67-72 | with any smaller page three lines of control characters would not |
| ResourceLimits.DefaultsNeedSixtyFourBits | internal/config/limits.go:100-155 | the defaults are accepted where int has 64 bits and refused where it has 32 |
| GoCache.Cache.Restore | scripts/ci_go_cache.py:67-85 | overlays the payload exactly when it fits and contradicts no entry, and remembers the image's objects |
| GoCache.Cache.Export | scripts/ci_go_cache.py:88-104 | only added objects, within the limit, leaving out only what does not fit beside the newer ones kept |
| GoCache.OmittedDoesNotFit | scripts/ci_go_cache.py:98-100 | an omitted object does not fit beside the final export |
| GoCache.NothingThatFitsIsLost | scripts/ci_go_cache.py:88-104 | if all that was added fits, all of it is exported |
| GoCache.ExportUndoesRestore | scripts/ci_go_cache.py:67-104 | after an accepted restore an export is exactly the payload without the image's objects |
| GoCache.Cycle | scripts/ci_go_cache.py:67-104 | the same of a cycle as it runs |

## Left out

- Which error is returned: every refusal of the reader, the copy and the limits is one failure, and read or write errors of streams do not occur.
- `LeaseTables.Updated` does not carry reasons, ciphertexts and creation times, which no guard reads; log buffers are only empty or not.
- LeaseStore.Database.Exec: one method executes any statement by its table functions; the sqlc wrappers that pass arguments and scan rows are not modelled.
- LeaseStore.Database.DeleteAgent: labels, log sequences, capabilities and dispatch payloads are not modelled; which step attempts are bound to the agent, live or not, are arguments.
- LeaseStore.Database.RecoverPendingDeployments: gates and verifications reconciled by the same transaction, and the relaunch loop after it, are not modelled.
- LeaseRuns.StartedOnce: a row deleted with its deployment and inserted again is a new row.
- Key rotation of stored log buffers and listing queries.
- Pairing is one statement that may set any pairing state, which allows more runs than the guarded originals.
- Attempts of remote steps (states other than waiting, started, succeeded and failed): no query in the repository writes them.
- GateBundle.CopyGateBundle: archive encoding is not modelled; reading an archive that was written is assumed to give its entries back.
- ResourceLimits.Validate: the rounding of the helper CPU share, which is a real number here, and the reflection that visits the fields; the fields are listed instead.
- GoCache.Cache.Restore: listing a cache directory, ownership and symbolic links; a directory is a map, one object per entry, and the counts reported are left out.
- Editing or deleting log lines.
