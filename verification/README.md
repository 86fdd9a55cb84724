# Agent harness: verified models

The harness runs coding agents against git repositories: it allocates a worktree per session, talks to an agent over
JSON-RPC, bills what the agent spent, and ships the result as a pull request. This project models the parts of it that
keep state, in Dafny, and proves what they promise. Each Dafny module stands for one component:

- `CommitGraph`, `GitRefs`, `Interleaving`, `AllocationSteps`, `GitAdapter`: commits, refs, worktrees and the in-flight
  tables. `GitAdapter` is the adapter one call at a time, with the repository as a field; `Interleaving` runs any number of
  allocations, reverts, worker commits and releases against each other, one git step at a time; `AllocationSteps` shows
  that a call is a run of those steps, with `Paths` for chains of steps. The main results are when exactly a run loses no
  commit that a local head or rescue ref reaches, and that two allocations never build one branch.
- `NeverCommit`, `Redaction`, `ScrubbedOutput`: staging without the off-limits paths, and scrubbing secrets from text;
  `ScrubbedOutput` is about the whole output, where hiding a token can make a URL out of what the scrub had left alone.
- `Vault`: the credential vault over an ideal authenticated cipher (the role AES-GCM plays, section 7 of NIST
  SP 800-38D), including every point at which a key rotation can be interrupted.
- `AcpFraming`, `AcpConnection`, `AcpCost`: the newline framer, the JSON-RPC 2.0 peer (sections 4 and 5 of that
  specification) and the bill of a turn and of a chain of resumed turns.
- `ConfigTree`, `ConfigParse`, `ConfigSharing`, `ConfigDefaults`: merging and parsing the configuration, first on values
  and then on the heap, where a parsed configuration shares objects with the defaults and is written to in place.
- `StreamWatchdog`, `LeadLadder`: the two timers on a worker's stream, and the retries of the planning call.
- `CiVerdict`, `MergeGate`: the CI verdict on a commit and the gate in front of a merge.
- `Permissions`: the ordered permission document and what a repository's own block can do to it.

What git, GitHub, SQLite, the agent and the clock answer are parameters, so every result holds for all their answers.

## Model

| member | source | states |
|---|---|---|
| GitRefs.DoomedEmptyIff | src/adapters/git-worktree.ts:929-933 | the rescue check finds nothing to park exactly when the start point already reaches the branch tip |
| GitRefs.RescueShelters | src/adapters/git-worktree.ts:926-946 | the rescue step loses no commit and leaves a rescue ref or the start point reaching the branch tip |
| GitRefs.ResetKeepsIff | src/adapters/git-worktree.ts:926-946 | moving a branch loses work exactly when no other head, no rescue ref and not the new target reaches the old tip |
| GitAdapter.Adapter.Allocate | src/adapters/git-worktree.ts:439-485 | refusals touch nothing and name the holder; otherwise both table entries are gone at the end, no protected commit is lost, the path taken and the repository left are those CallComesTo speaks of, and a successful call reports one decision that names where the branch was left; preservation leaves every head where it was, recovery puts a missing branch on the recorded commit |
| GitAdapter.Adapter.AllocateInner | src/adapters/git-worktree.ts:573-685 | the same for the choice between preserve, recover, reuse and reset with their fallbacks |
| GitAdapter.Adapter.RecoverBranch | src/adapters/git-worktree.ts:616-642 | recovery succeeds exactly when the SHA is a commit here and both git steps work; a half-done recovery loses nothing |
| GitAdapter.Adapter.ResettingCheckout | src/adapters/git-worktree.ts:651-680 | the path taken, and on success the branch is at the reported start point; on reuse the pushed branch is tried first and the base only when that failed |
| GitAdapter.Adapter.ResetCheckout | src/adapters/git-worktree.ts:664-679 | rescue and reset together lose nothing, and say exactly when the checkout succeeds and what it moves |
| GitAdapter.Adapter.RescueBranchIfAhead | src/adapters/git-worktree.ts:926-946 | the step-by-step check equals its specification and shelters the branch |
| GitAdapter.Adapter.ReconcileBranchWorktrees | src/adapters/git-worktree.ts:983-1025 | exactly the other worktrees on the branch that nobody is building, and that can be removed, are removed |
| GitAdapter.Adapter.UnreachableCommits | src/adapters/git-worktree.ts:957-971 | the list returned is the recorded commits that are unreachable, not commits, or whose check failed, in order |
| GitAdapter.NothingUnreachableIff | src/adapters/git-worktree.ts:957-971 | the list is empty exactly when every recorded commit was checked and is an ancestor |
| GitAdapter.RecoveredLedgerIsReachable | src/adapters/git-worktree.ts:957-971 | once the branch is at the recorded tip, a ledger of its ancestors is fully reachable |
| GitAdapter.Adapter.RevertCommits | src/adapters/git-worktree.ts:1733-1794 | a revert loses nothing, leaves the tables as they were, and succeeds exactly when the fetch, the checkout, every revert and one of the two pushes do; then there is one new commit per recorded SHA on top of the base |
| AllocationSteps.CallIsSteps | src/adapters/git-worktree.ts:573-685 | the effect of a call on the repository is that of a run of its own steps |
| AllocationSteps.CallComesTo | src/adapters/git-worktree.ts:573-681 | which path a fetched call succeeds on, and where the branch ends up, told from the request, the repository found and git's answers: preservation, recovery, a possible reuse, the base when reuse is not possible, or failure |
| AllocationSteps.ReuseIsTaken | src/adapters/git-worktree.ts:665-669 | with reuse on and the branch on the remote, a free place and a working checkout, the call reuses the pushed branch and leaves the local one at the fetched commit |
| AllocationSteps.AllocationIsRun | src/adapters/git-worktree.ts:439-485 | an admitted call that nobody interrupts is a run of the step machine from its first step to its last, with the same repository and the same tables at the end |
| Interleaving.TablesStayInAgreement | src/adapters/git-worktree.ts:464-484 | every step keeps the in-flight tables equal to what is running, with each allocation holding its own entry |
| Interleaving.Exclusive | src/adapters/git-worktree.ts:464-484 | two running allocations never share a repository and branch |
| Interleaving.OneStep | src/adapters/git-worktree.ts:573-680 | a calm step of anybody keeps every protected commit and every pending reset sheltered |
| Interleaving.RunKeepsCommits | src/adapters/git-worktree.ts:573-680 | over every calm run, a commit some head or rescue ref reaches stays reachable from one at every later point |
| Interleaving.StepKeepsIff | src/adapters/git-worktree.ts:573-680 | in any state a step keeps every protected commit exactly when it is no reset that moves its branch, or the branch is new, or another head, a rescue ref or the start point reaches the old tip |
| Interleaving.RunKeepsIff | src/adapters/git-worktree.ts:573-680 | over every run, calm or not, nothing protected is ever lost exactly when every reset meets that condition |
| Interleaving.RunExcludes | src/adapters/git-worktree.ts:464-484 | over every run, calm or not, allocations in flight never share a branch and keep their entries until they finish |
| Interleaving.DiscardSparesBuilders | src/adapters/git-worktree.ts:1002-1009 | reconcile never removes a worktree that a running job is building |
| Interleaving.SecondAdmittedIff | src/adapters/git-worktree.ts:465-466 | a second allocation of a branch in flight gets in exactly when nothing is at its own path and the first one's session id is empty |
| Interleaving.ResetLosesIff | src/adapters/git-worktree.ts:663-678 | one reset step of a run loses work exactly when nothing that remains reaches the old tip |
| Interleaving.CommitInTheWindowIsLost | src/adapters/git-worktree.ts:663-678 | a run from an idle world in which a commit made between the rescue check and the reset is lost, so the calm condition is needed |
| NeverCommit.ChunksCover | src/adapters/git-worktree.ts:1590-1594 | the calls name every path once, in order, at most 200 to a call |
| NeverCommit.AuthorisesIff | src/adapters/git-worktree.ts:1547-1548 | an entry that ends in a slash authorises what is under it, any other exactly the file of that name |
| NeverCommit.Worktree.UnstageInChunks | src/adapters/git-worktree.ts:1590-1594 | the loop unstages exactly the given paths in exactly those calls; a failing call ends it |
| NeverCommit.Worktree.RevertNeverCommitPaths | src/adapters/git-worktree.ts:1541-1632 | exactly the off-limits paths nobody authorised are unstaged, by name when some are spared |
| NeverCommit.Worktree.Commit | src/adapters/git-worktree.ts:1637-1663 | when the revert worked, the off-limits paths in the commit are exactly the authorised ones, and nothing else is dropped |
| Redaction.HideHides | src/adapters/git-worktree.ts:195-197 | replacing a token leaves none of it, and brings back no other token that was absent |
| Redaction.HiddenEverywhereIff | src/adapters/git-worktree.ts:195 | replacing a token by stars hides it in every text exactly when stars can neither begin, end nor bridge it |
| Redaction.EncodeStarSafe | src/adapters/git-worktree.ts:196-197 | URL-encoding keeps that property |
| Redaction.UserinfoScrubbed | src/adapters/git-worktree.ts:193 | after the scrub, before any token is hidden, every URL that carries userinfo has stars for it |
| Redaction.RedactionHides | src/adapters/git-worktree.ts:192-200 | the output holds neither the token nor its encoded form, wherever they straddled a replacement |
| Redaction.EncodeStarSafeIff | src/adapters/git-worktree.ts:196-197 | a token and its encoding have that property together |
| Redaction.RedactionHidesIff | src/adapters/git-worktree.ts:192-200 | for every non-empty token, no text leaves the token or its encoded form in the output exactly when the token has it |
| Redaction.StarFreeIsSafe | src/adapters/git-worktree.ts:192-200 | every non-empty token without a star is such a token |
| Redaction.StarredTokenSurvives | src/adapters/git-worktree.ts:192-200 | a token with a star at its end that redaction leaves in the text |
| Redaction.EncodeRoundTrip | src/adapters/git-worktree.ts:196 | encoding loses nothing: undoing the escapes and the UTF-8 gives back the characters |
| ScrubbedOutput.RedactedStarredIff | src/adapters/git-worktree.ts:192-200 | for every non-empty token, the userinfo of every URL in the output is three stars, for every text, exactly when the token is not one that disturbs: a test of the token's own characters |
| ScrubbedOutput.RedactedStarred | src/adapters/git-worktree.ts:192-200 | the same for one text, and without any condition when there is no token or an empty one |
| ScrubbedOutput.OrdinaryTokenKeepsStars | src/adapters/git-worktree.ts:192-200 | no token of userinfo characters other than the star disturbs |
| ScrubbedOutput.SpaceDisturbs | src/adapters/git-worktree.ts:192-200 | a text in which hiding a space leaves a URL with a longer userinfo |
| ScrubbedOutput.ScrubIs | src/adapters/git-worktree.ts:193 | without a token the output is the text cut at any URL with userinfo, that userinfo made stars, and both sides treated alike; a text without such a URL is left alone |
| ScrubbedOutput.UserinfoIsIrrelevant | src/adapters/git-worktree.ts:192-200 | two texts that differ in the userinfo of a URL have the same output, with any token |
| ScrubbedOutput.ScrubsFirst | src/adapters/git-worktree.ts:193-194 | redaction with a token starts from what redaction without one leaves |
| ScrubbedOutput.RedactStarred | src/adapters/git-worktree.ts:194-197 | in scrubbed text, a token that encoding leaves alone is hidden and nothing else changes |
| ScrubbedOutput.HideIs | src/adapters/git-worktree.ts:195 | hiding turns the first occurrence into three stars and goes on behind it; without one it changes nothing |
| ScrubbedOutput.NothingToRedact | src/adapters/git-worktree.ts:192-200 | scrubbed text that holds neither form of the token is left alone |
| Vault.CredentialVault.constructor | src/adapters/credential-vault.ts:173-269 | opening throws on a wrong key; otherwise it gives a valid vault under the key file's key, or the generated one, with the same rows, damaged ones included, and every instant on the way is one a key file opens if the disk found was |
| Vault.CredentialVault.WithEnvironmentKey | src/adapters/credential-vault.ts:185-189 | the same with a key from the environment, which touches no key file |
| Vault.CredentialVault.Get | src/adapters/credential-vault.ts:277-299 | an absent service is a miss, a row that does not unseal under its own name is a fault, otherwise the stored value |
| Vault.CredentialVault.Set | src/adapters/credential-vault.ts:302-326 | the contents gain exactly this secret, replacement keeps the creation time, a blank name or empty value changes nothing, whatever the other rows hold |
| Vault.CredentialVault.Delete | src/adapters/credential-vault.ts:328-333 | the contents lose exactly this service, which may be a damaged row |
| Vault.CredentialVault.Rotate | src/adapters/credential-vault.ts:361-401 | rotation succeeds exactly when nothing fails and every row unseals; it changes no secret, nor anything of a row but its sealed text, and leaves the new key in the key file; a failed one changes no row, an environment key refuses, the disk passes through the stated instants, and each of them is one a key file opens if the disk before was |
| Vault.RotationIsSound | src/adapters/credential-vault.ts:361-401 | every instant of a rotation, finished or undone, with the staged file removed or left, is one a key file opens |
| Vault.CredentialVault.ResealRows | src/adapters/credential-vault.ts:376-384 | the transaction's rows are the old ones under the new key, and it fails exactly when a row cannot be unsealed or written |
| Vault.OpeningIsSound | src/adapters/credential-vault.ts:173-269 | opening leaves a disk its key file opens, before and after the verifier is written |
| Vault.OpensIff | src/adapters/credential-vault.ts:246-269 | once the verifier exists the vault opens exactly under the key that sealed it |
| Vault.StepSound | src/adapters/credential-vault.ts:361-401 | every durable step keeps one of the two key files good for the verifier and every row nobody else has damaged |
| Vault.EveryCrashPoint | src/adapters/credential-vault.ts:361-401 | at every point of every history, with crashes between any two durable steps, reopenings and rows damaged from outside, the key file or the staged file opens the verifier and every undamaged row; it is the key file itself exactly when no committed rotation still misses its rename |
| Vault.NothingDamaged | src/adapters/credential-vault.ts:302-333 | while only the vault writes to its rows, that is every row |
| AcpFraming.CutUnique | src/adapters/acp.ts:383-399 | lines and tail are the only way to cut a text at its newlines |
| AcpFraming.FramingResumes | src/adapters/acp.ts:383-399 | more text never changes what was already framed |
| AcpFraming.TrimIs | src/adapters/acp.ts:387 | trimming takes only white space, and all of it, off both ends |
| AcpFraming.Framer.TakeLine | src/adapters/acp.ts:387-397 | a line is trimmed and dispatched unless it is blank or does not parse |
| AcpFraming.Framer.Ingest | src/adapters/acp.ts:383-399 | one chunk dispatches the messages of the lines it completes and keeps the unterminated rest |
| AcpFraming.Framer.IngestAll | src/adapters/acp.ts:383-399 | however the output is cut into chunks, the messages are those of the whole text, in order |
| AcpConnection.CloseSound | src/adapters/acp.ts:349-369 | closing rejects exactly the waiting requests, each once |
| AcpConnection.ResponseSound | src/adapters/acp.ts:401-415 | a matching response settles its request once and takes it off the table |
| AcpConnection.StepSound | src/adapters/acp.ts:342-484 | every step keeps ids fresh, the pending table exact, settlements and replies single, and settled requests unchanged |
| AcpConnection.EveryInterleaving | src/adapters/acp.ts:342-484 | in every interleaving a closed connection has nothing pending and no request still waiting |
| AcpConnection.SettledByItsAnswer | src/adapters/acp.ts:349-415 | in every interleaving a settled promise was resolved with the result of a response that carried its id and no error, or rejected with the message of one that carried an error, or rejected with the reason the connection closed with |
| AcpConnection.RepliesSayWhatFinished | src/adapters/acp.ts:418-444 | in every interleaving each reply carries the id of its handler's request, and the outcome and the body that handler finished with |
| AcpConnection.Connection.Request | src/adapters/acp.ts:459-484 | a request on a closed connection is rejected at once; otherwise it gets the next id and an entry |
| AcpConnection.Connection.Dispatch | src/adapters/acp.ts:401-446 | a response without an error resolves the promise of its id with the result, one with an error rejects it with the message or the default one, and no other promise changes; a method with an id starts a handler, one without is a notification, and anything else changes nothing |
| AcpConnection.Connection.FinishHandler | src/adapters/acp.ts:422-444 | a finished handler answers once, with its own id and what it finished with, unless the connection has closed |
| AcpConnection.Connection.OnError | src/adapters/acp.ts:349-356 | a spawn failure rejects everything pending and is remembered |
| AcpConnection.Connection.OnExit | src/adapters/acp.ts:361-369 | an exit does the same and names the spawn failure if there was one |
| AcpConnection.Connection.Drain | src/adapters/acp.ts:367 | the loop over the table rejects each pending request once, in the order they were made |
| AcpCost.CostMeter.OnUsage | src/adapters/acp.ts:724-762 | a figure before the prompt moves the baseline, one after it the latest figure, and any doubtful one marks a mismatch |
| AcpCost.CostMeter.RunTurn | src/adapters/acp.ts:528-541 | a turn's bill is what its frames settle to |
| AcpCost.BillHonest | src/adapters/acp.ts:1027-1044 | no cost is negative, a cost other than zero is marked as measured, and a measured cost is the last figure less the baseline |
| AcpCost.MeasuredIff | src/adapters/acp.ts:1027-1044 | a cost is measured exactly when a figure came after the prompt, every figure is sane and keeps to the checkpoint, and the baseline is known and not above the last figure |
| AcpCost.SaneIs | src/adapters/acp.ts:730-735 | a figure is sane exactly when it is finite, not negative, and in US dollars in any spelling or without a currency |
| AcpCost.ChainTelescopes | src/adapters/acp.ts:1027-1034 | from a known checkpoint the recorded costs are the growth of the cumulative figure, within the tolerance per figure |
| AcpCost.ChainSums | src/adapters/acp.ts:1027-1034 | over any chain they are the last checkpoint less the first measured baseline, or zero when nothing was measured |
| AcpCost.FallbackBillsInFullIff | src/adapters/acp.ts:528-533 | a new session prompted against an old baseline is billed in full exactly when its baseline is zero, and it is measured exactly when it spent at least the stored figure |
| ConfigTree.MergeDeep | src/config.ts:2022-2044 | the loop computes the merge |
| ConfigTree.MergeIdempotent | src/config.ts:2022-2044 | merging the same override twice changes nothing |
| ConfigTree.MergeAbsorbs | src/config.ts:2022-2044 | merging a merge back into its base changes nothing |
| ConfigTree.MergeAtPath | src/config.ts:2022-2044 | along any path of objects the override's value wins unless it is null or undefined, and objects are merged |
| ConfigParse.ParsedField | src/config.ts:2090-2226 | a parsed field is the input's value, else the default, merged if both are objects, clamped; it is gone if it was removed or if the input replaces its section by something that is no object |
| ConfigParse.ClampedOnce | src/config.ts:2138-2215 | a field with a clamp gets that clamp and no other |
| ConfigParse.ClampedRootSettles | src/config.ts:2138-2215 | after the clamps every clamped number is in range, and a root already in range is left alone |
| ConfigParse.ParsedIsFixed | src/config.ts:2090-2226 | an accepted configuration parses to itself, in range and without removed keys |
| ConfigParse.AcceptedIff | src/config.ts:2105-2223 | a configuration whose checked settings have the right types is accepted exactly when both lists are non-empty, the session budget is at most its ceiling, the monthly one positive, the daily warning at most the daily limit, the repair settings in range when there are any, Vercel's two fields set when it is enabled, and its token routing valid |
| ConfigParse.MinimalAccepted | src/config.ts:2105-2223 | over defaults whose own settings cohere, one user and one repository are enough, given valid token routing |
| ConfigParse.ClampedIs | src/config.ts:2138-2215 | a clamp gives the floor below it, the ceiling above it and the value in between |
| ConfigParse.RoundIs | src/config.ts:2198 | rounding gives the nearest whole number, halves going up |
| ConfigParse.RemovedAreGone | src/config.ts:2096-2103 | no accepted configuration holds a removed key |
| ConfigSharing.MergeKey | src/config.ts:2027-2041 | a key the input leaves out keeps the defaults' object; a new object appears only where both sides are objects |
| ConfigSharing.MergeRoot | src/config.ts:2022-2044 | the merged root shows the merge of the values, shares exactly the sections left out, and holds no object twice |
| ConfigSharing.DropRemoved | src/config.ts:2096-2103 | deleting in place shows the root without the removed keys |
| ConfigSharing.ClampInPlace | src/config.ts:2138-2215 | the clamps written in place show the clamped root |
| ConfigSharing.Parse | src/config.ts:2090-2226 | the parser on the heap returns the parsed value or throws when it should, shares what was left out, and leaves the defaults as specified |
| ConfigSharing.SharingIsSafeIff | src/config.ts:2090-2226 | a parse leaves the defaults as they were exactly when every section left out holds no removed key and only numbers the clamps keep |
| ConfigSharing.DefaultsSurvive | src/config.ts:2090-2226 | defaults the drops and clamps leave alone survive every parse |
| ConfigSharing.ParseTwice | src/config.ts:2090-2226 | two parses over the same defaults: each result is what its own input calls for, and the second leaves the first alone |
| ConfigDefaults.DefaultsAreGood | src/config.ts:1707-1990 | the shipped defaults, every section and field of them, are such defaults |
| ConfigDefaults.ShippedParseIsFixed | src/config.ts:2090-2226 | with the shipped defaults and clamps, an accepted configuration parses to itself |
| ConfigDefaults.ShippedMinimalAccepted | src/config.ts:1707-1990 | the shipped defaults with one user and one repository are accepted exactly when their own token routing is valid |
| ConfigDefaults.ShippedDefaultsSurvive | src/config.ts:1707-1990 | no input makes the parser change the shipped defaults |
| ConfigDefaults.ParseShippedTwice | src/config.ts:2090-2226 | with the shipped defaults each of two results depends on its own input alone |
| StreamWatchdog.Watchdogs.Run | src/adapters/claude-code.ts:426-465 | as time passes the timers fire exactly when a deadline passes with nothing to stop it |
| StreamWatchdog.Watchdogs.Note | src/adapters/claude-code.ts:539-580 | a message arms and clears the timers so that this stays so |
| StreamWatchdog.Consume | src/adapters/claude-code.ts:350-625 | the stop reason is first_token_timeout exactly when the stream-open deadline passes before an init or content block, or the first-token deadline after the init and before any content; otherwise the last result, or the abort signal, decides |
| StreamWatchdog.LateInitIsHarmless | src/adapters/claude-code.ts:539-580 | a late init after content never triggers it, whether or not the stream-open watchdog is on |
| StreamWatchdog.NoEarlyTimeout | src/adapters/claude-code.ts:413-440 | no timeout before a configured window has passed |
| StreamWatchdog.SilenceTimesOut | src/adapters/claude-code.ts:430-441 | a stream without an init or content times out once the stream-open window has passed |
| StreamWatchdog.SilenceAfterInitTimesOut | src/adapters/claude-code.ts:451-462 | a stream that opened and stays without content times out once the first-token window has passed |
| StreamWatchdog.ContentInTime | src/adapters/claude-code.ts:557-569 | content before either window has passed rules a timeout out |
| StreamWatchdog.ResultDecides | src/adapters/claude-code.ts:599-604 | without a timeout the last result message decides the stop reason and the cost |
| StreamWatchdog.NothingDecides | src/adapters/claude-code.ts:400-402 | without a result message the stream ends its turn at no cost |
| StreamWatchdog.SessionOfLastInit | src/adapters/claude-code.ts:540-541 | the session id is that of the last init |
| StreamWatchdog.FirstTokenTime | src/adapters/claude-code.ts:557-566 | the time to the first token is that of the first message with a content block, and absent without one |
| StreamWatchdog.FinalMessageIs | src/adapters/claude-code.ts:574-581 | the final message is the text of the last message that has any |
| LeadLadder.RunLead | src/adapters/claude-code.ts:1572-1752 | at most three calls, the third only on a describable fault, salvage only after two failures and from the freshest reply, and every exit bills the sum over the calls made; retries quote every fault and a size reduction carries no corrective note |
| LeadLadder.FreshestIs | src/adapters/claude-code.ts:1725-1733 | the plan salvaged is that of the last reply that holds one |
| CiVerdict.CountIfFacts | src/adapters/github.ts:563-565 | a filter's count is zero exactly when no run passes it and the length exactly when all do |
| CiVerdict.CountRuns | src/adapters/github.ts:563-565 | the three counts of a list of runs, or nothing when a null entry breaks the count |
| CiVerdict.ReadChecks | src/adapters/github.ts:550-580 | what a list of check runs, a denial or a broken list leaves in the snapshot |
| CiVerdict.ReadWorkflowRuns | src/adapters/github.ts:460-494 | only a complete, well-formed list of workflow runs counts |
| CiVerdict.GetCiSnapshot | src/adapters/github.ts:516-672 | the state is the verdict on the evidence read, with the source and the permanent denials |
| CiVerdict.EvidenceIs | src/adapters/github.ts:532-600 | which runs the verdict rests on: a complete list of check runs, or after a permanent denial a complete list of workflow runs, or none |
| CiVerdict.VerdictIs | src/adapters/github.ts:604-672 | each of the five verdicts in terms of GitHub's own state, status and conclusion strings |
| CiVerdict.GreenIff | src/adapters/github.ts:645-665 | green exactly when both signals were read, every run passed, legacy is green or absent, and there is something to go by |
| CiVerdict.MoreRuns | src/adapters/github.ts:613-624 | red survives any added runs, and added runs never turn a non-green verdict green unless nothing was configured |
| CiVerdict.TruncatedIsUnknown | src/adapters/github.ts:567-572 | a truncated list of check runs is never rescued by the fallback |
| CiVerdict.GreenByFallback | src/adapters/github.ts:582-600 | a green without check runs means the Checks API was denied and every workflow run passed |
| MergeGate.MergePr | src/index.ts:2110-2294 | the merge call is reached only by an invoker on the list with a token, an open pull request, CI that is green or absent, and a recommendation to merge or one of the two ways round it, the Vercel override only where a project is configured; it must be reached in each of these three cases, and the session row and the reply say what happened |
| MergeGate.MergeRestsOn | src/index.ts:2134-2287 | every merge rests on an allowed recommendation and a readable CI in which every run passed; a blocking finding is passed only by a green pipeline |
| Permissions.PutIs | src/adapters/opencode-config.ts:44-67 | assigning to a key keeps its place and takes the new action, and a new key goes last |
| Permissions.BuildConfig | src/adapters/opencode-config.ts:171-198 | the document asks for the catch-all first and then every key in order; a toolless role has every tool off |
| Permissions.BuildShippedConfig | src/adapters/opencode-config.ts:171-198 | the same for the shipped lists |
| Permissions.EscapesIff | src/adapters/opencode-config.ts:44-67 | for any repository block and any matching, a key escapes exactly when the block lets it, names every pattern matching it, and decides it by a rule of its own |
| Permissions.ListedKeysAsk | src/adapters/opencode-config.ts:44-67 | over any block of literal keys, every listed key asks |
| Permissions.OtherKeyEscapesIff | src/adapters/opencode-config.ts:44-67 | any other key escapes exactly when the block names it with something other than ask after every matching wildcard |
| Permissions.ShippedKeysAreProper | src/adapters/opencode-config.ts:71-102 | the shipped keys are distinct and of the form these results ask for |

## Where the code and its comments differ

The model follows the code.

- `unreachableCommits` says an indeterminate check fails open; every git failure counts as unreachable.
- The workflow-runs fallback is described as an answer to a denied Checks API; a denied statuses API triggers it too,
  though the verdict then stays unknown.
- A recovered branch returns early, so the commit identity and the dependency install that follow are skipped.
- A salvaged plan is logged as coming from two truncated attempts; any two failed attempts lead there.

## Left out

- Interleaving.RunKeepsCommits: asks for calm steps while a job sits between its rescue check and its reset, because the two are separate git commands; CommitInTheWindowIsLost shows the condition is needed, and RunKeepsIff gives the exact condition for every run.
- Interleaving.OneStep: asks for the same; StepKeepsIff is exact.
- Interleaving.RunExcludes: asks that session ids are not empty, because an empty holder is falsy; SecondAdmittedIff is exact about it.
- AllocationSteps.CallComesTo: leaves open what happens when a local branch is itself called `origin/<branch>`, where git's lookup picks that one, and when the base has no local head after a failed reuse; ResettingCheckout is exact about these too.
- GitRefs.RescueShelters: takes rescue refs to be fresh and the rescue commands to fail only when the start point does not resolve.
- Redaction.RedactionHides: asks for a star-safe token, which RedactionHidesIff shows is the exact condition; characters beyond the basic plane are encoded one by one, and lone surrogates, on which encodeURIComponent throws, are not modelled.
- AcpCost.ChainSums: takes each resumed session to load; FallbackBillsInFullIff says what happens when it does not. Amounts are reals, so rounding is not modelled.
- Vault.EveryCrashPoint: treats an interruption as the death of the process and takes a generated key to differ from the one in use; a rename that throws while the process lives on, several processes on one vault, a damaged verifier, and initialisation vectors are not modelled.
- ConfigParse.AcceptedIff: asks that the checked settings have their schema types; for other types ParsedField gives the values the checks read.
- ConfigParse.ParsedIsFixed: compares numbers as reals; NaN, infinities, and JavaScript's coercion of strings in comparisons are not modelled, and the validation of the pat_routing tree is a parameter.
- ConfigSharing.Parse: tracks objects down to the sections, the only ones the parser writes to.
- LeadLadder.RunLead: asks that the second and third call throw different error objects, because the second one's cost field is overwritten in between.
- Permissions.ListedKeysAsk: covers repository blocks of literal keys besides the two wildcards; for any other patterns EscapesIff gives the exact condition.
- Config trees: the order of keys, and keys such as `__proto__`, are not modelled.
- Git: tags and other refs that shadow a branch name, objects missing from a partial clone, and a worker that moves refs by force.
- Releases and startup self-heal: a release is a step that unregisters a worktree; which worktrees are healed is not modelled.
- Commits: restoring the working tree after unstaging, and the scratch sweeps, exclude files and the runaway check before staging; file names that git quotes, and paths that contain pathspec characters when named one by one.
- The agent turn: permission replies, watchdog timers, tool calls and token counts of the turn, and multi-byte characters cut between chunks; a JSON line holding `null`, which makes dispatch throw.
- The stream: the stream-slow detector, token counts, log excerpts and the text gathered for the scout.
- The planning call: the per-attempt audit reports, token counts, and the JSON extraction and repair behind the fault and the salvaged plan.
- CI: reason texts and check names; the polling loop around the snapshot.
- The merge: classification of findings, token resolution, and the deploy verification after a merge.
- Permissions: object-valued actions, and integer-like keys, which JavaScript orders first.
- The vault's `list`, key parsing and file modes; small finite tables such as tiers, versions and roles.
