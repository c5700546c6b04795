# A verified model of the WeCom code governor

The governor lets members of a WeCom chat ask a bot to change code. A code task gets a branch and a linked
git worktree, Codex edits there (possibly over several rounds), and `complete` counts, validates, counts
again, checks the base checkout, commits, merges with `--ff-only`, optionally pushes and cleans up. The chat
session's record (project, active worktree, Codex thread) is loaded and saved around every tool call and is
shared by the members of a group chat. This project models that protocol, the record, and the text and path
algorithms around it, and proves what they keep.

`dafny verify dfyconfig.toml` checks everything.

## The parts

| file | what it models |
|---|---|
| `Git.dfy` | commit graph, branches, HEAD, linked worktrees; the governor's git commands; what outsiders may do |
| `Protocol.dfy` | any number of `begin`/`complete` calls as program counters, one git command per step, outsiders in between; the invariant of every run |
| `Guarantees.dfy`, `History.dfy` | what holds over every run; what MERGED means for the run behind it |
| `Scenarios.dfy` | an undisturbed change is committed; concrete runs for expectations that fail |
| `Bounds.dfy` | when a merge keeps the limits, and that the bound over several attempts is reached |
| `Seeding.dfy` | the local files that a new worktree gets |
| `WorktreeManager.dfy` | the class with its methods, shown to produce runs of the protocol |
| `Sessions.dfy` | several sessions on one repository: the store, the tasks, and which stored payload stands for which task |
| `Policy.dfy` | identities, projects, permission groups |
| `SessionState.dfy` | printer and fail-closed parser of session records, and the store |
| `Runtime.dfy`, `Governor.dfy` | what each tool call does to the store, as a function and as the runtime object |
| `Ledger.dfy` | what the record of a session holds after any run, told as a ledger of selections, tasks and answers |
| `Outbox.dfy`, `Selection.dfy` | queued deliveries and notices given once; project cards |
| `TaskId.dfy`, `Text.dfy`, `Decimal.dfy` | task names; trimming; decimal numerals |
| `Template.dfy`, `HttpAction.dfy` | format strings, the load-time check, rendering of HTTP actions |
| `Discovery.dfy`, `Catalogue.dfy` | repository discovery over possibly cyclic submodules; the project catalogue |
| `Masking.dfy` | masking of secrets in job output, joining and cutting of the streams |
| `Inspector.dfy` | bounded search and paged reading |
| `Guard.dfy`, `Rewriting.dfy` | confinement of the file tools' paths; what rewriting does to their calls |

The imperative parts of the source are classes and methods with loops; each is proved against a function or
predicate, about which the lemmas then speak. Parameters such as `space`, `alnum`, `fold`, `home` and `idOf`
stand for Python's character classes, case folding, home directories and hashed identifiers.

## What turned out not to hold

Each comes with a lemma that gives a case, and with the exact condition under which the property does hold.

- A bot commit can be lost. `git branch -d` looks at HEAD; when somebody has detached HEAD before the merge,
  the call reports MERGED and deletes the only branch with the commit (`Scenarios.DetachedHeadLosesTheCommit`).
  Exactly: `Guarantees.BotWorkIsConservedIff` over runs, `Guarantees.DeletionConservesIff` for one deletion; it is
  enough that HEAD is on a branch whenever one is deleted (`Guarantees.BotWorkIsConserved`).
- MERGED need not mean that the recorded base branch has the commit: a switch of the checkout after the
  precondition reads takes the merge elsewhere (`Scenarios.SwitchedCheckoutTakesTheMerge`). Exactly when the base
  branch is checked out at the merge, or had the commit already, it has the commit afterwards
  (`Guarantees.MergedIntoBaseIff`, over runs `History.MergedIsInBaseIff`); it is enough that nobody switches
  (`Guarantees.MergedIntoBase`, `History.MergedIsInBase`).
- The limits hold for every commit against its parent, but what a second attempt lands exceeds them for some
  work, whatever the limits are (`Bounds.SecondAttemptExceedsTheLimit`). Exactly: the work has to be within the
  limits against the recorded base commit (`Bounds.LandsWithinLimitsIff`). The number of commits times the limits
  is a bound (`Guarantees.LandingIsBounded`), and it is reached (`Bounds.BoundIsReached`).
- After a merge failed behind the commit, a retry sees no changes and removes the worktree; unless HEAD
  contains the commit, `branch -d` refuses, and no later call ever ends the task
  (`Scenarios.RetryStrandsTheTask`; exactly: `Guarantees.RetryEndsWellIff`; for ever: `Guarantees.StrandedForEver`).
- `begin` may fail and still leave its branch and worktree behind, and the name taken
  (`Scenarios.MissingSeedLeavesTheWorktree`, `Guarantees.OwnedNameIsTaken`): exactly when the worktree has been
  created and a seed is missing, resolves outside the project or cannot be copied
  (`Worktrees.WorktreeManager.Begin`, `Seeding.SeedWorkspace`).
- A stored worktree is dropped by a context call, or by a selection, of a member for whom the record is not
  usable (`Runtime.GuestDropsTheTask`); exactly: `Runtime.StoredTaskSurvivesIff`; over runs:
  `Runtime.CoveredTaskSurvivesRuns`.
- Masking protects exactly the secrets without a star at an end and without three stars inside
  (`Masking.AlwaysMaskedIff`; cases: `Masking.LeadingStarSurvives`, `Masking.TrailingStarSurvives`,
  `Masking.InnerStarsSurvive`); a secret with a line break may appear where the two streams are joined
  (`Masking.StraddlingSecretShows`), exactly under the condition of `Masking.JoiningIsSafeIff`; the line that
  counts omitted characters may spell a secret (`Masking.HeaderShowsASecret`; exactly:
  `Masking.CombinedOutputShowsOnlyTheHeader`).
- The tag on a discovered project's name does not keep names unique (`Catalogue.TwoProjectsMayShareAName`;
  exactly: `Catalogue.NamesStayUniqueIff`).
- A search is called truncated although nothing is left out (`Inspector.CompleteSearchIsCalledTruncated`), exactly
  when the number of all matches is the limit (`Inspector.TruncatedIsCompleteIff`).
- An allowed patch may no longer be allowed once it has been rewritten, because the paths in its headers are read
  without the blanks around them (`Rewriting.RewrittenPatchMayBeBlocked`). Exactly: it stays allowed unless one of
  its places is the root itself with a blank at the end, or an entry of the root whose name is `..` and blanks
  (`Rewriting.RewrittenPatchStaysAllowedIff`; for all file tools `Rewriting.RewrittenCallsStayAllowedIff`). In the
  same way a header may come to mean another file inside the root (`Rewriting.BlankEndChangesThePlace`), and
  rewriting again changes a patch exactly when one of its paths ends in a blank (`Rewriting.PatchTwiceIsOnceIff`).

## Model

| member | source | states |
|---|---|---|
| Git.ReachesSurvivesGrowth | hermes_wecom_code_governor/worktree.py:310-315 | adding commits never changes which old commits are ancestors of which |
| Git.ChangesCompose | hermes_wecom_code_governor/worktree.py:218-224 | the counted changes and deletions of two successive edits bound those of both together |
| Git.OutsidersCan | hermes_wecom_code_governor/worktree.py:298-308 | others may at any time commit to, move forward, create and check out branches that no task holds, detach HEAD, and edit the checkout |
| Protocol.RepoAfter | hermes_wecom_code_governor/worktree.py:105-154 | every git command of a task keeps the repository well formed and only adds commits |
| Protocol.StepAdvances | hermes_wecom_code_governor/worktree.py:130-154 | one command leaves every branch where it is or moves it to a descendant; only the task's own branch is ever deleted |
| Protocol.StepDisturbsNobodyElse | hermes_wecom_code_governor/worktree.py:69-97 | a command of one task leaves base branch ancestry, branch and worktree of another task intact |
| Protocol.MoveDisturbsNobody | hermes_wecom_code_governor/worktree.py:298-308 | neither does any append-only move of outsiders |
| Protocol.CommitContinuesChain | hermes_wecom_code_governor/worktree.py:121-131 | a commit extends the task's line and keeps both limits against its parent, because the counts were retaken |
| Protocol.StepKeepsInv | hermes_wecom_code_governor/worktree.py:53-154 | every command of any call and every outside move keeps the invariant of all tasks at once |
| Protocol.RunKeepsInv | hermes_wecom_code_governor/worktree.py:53-154 | so does every run |
| Guarantees.BranchesOnlyAdvance | hermes_wecom_code_governor/worktree.py:132-138 | over any run a branch that is not a task branch stays or moves to a descendant of its old tip |
| Guarantees.NoOutsideCommitLost | hermes_wecom_code_governor/worktree.py:130-154 | a commit that such a branch contains stays contained in it for ever |
| Guarantees.BotWorkIsConserved | hermes_wecom_code_governor/worktree.py:310-324 | every commit the governor ever made is contained in some branch at every point of a run in which HEAD is on a branch whenever a task branch is deleted |
| Guarantees.BotWorkIsConservedIff | hermes_wecom_code_governor/worktree.py:310-324 | over any run, the governor's commits are conserved throughout if and only if every deletion finds those of the deleted branch in other branches |
| Guarantees.DeletionConservesIff | hermes_wecom_code_governor/worktree.py:322-324 | a deletion conserves all commits if and only if other branches contain those that the deleted branch contains, whoever moved it before |
| Guarantees.OwnTipElsewhereIff | hermes_wecom_code_governor/worktree.py:322-324 | for a branch that ends in the task's own last commit, this is so if and only if another branch contains that commit |
| Guarantees.EveryCommitIsBounded | hermes_wecom_code_governor/worktree.py:110-131 | every commit of every run has one parent, differs from it, and keeps both limits against it, whatever validation did |
| Guarantees.LineIsBounded | hermes_wecom_code_governor/worktree.py:181-197 | n commits in a line change and delete at most n times the limits |
| Guarantees.LandingIsBounded | hermes_wecom_code_governor/worktree.py:121-138 | a merge onto the recorded base branch changes at most (commits of the task) times the limits there, once the limit for the first attempt |
| Guarantees.CommittedWorkStartsAtBase | hermes_wecom_code_governor/worktree.py:305-307 | a task that got past the precondition reads was cut at the recorded base commit, although the branch is cut by a later command |
| Guarantees.MergeGoesToCheckout | hermes_wecom_code_governor/worktree.py:132-138 | a successful merge puts the task's last commit into whatever is checked out at that moment, and moves no other branch |
| Guarantees.MergeIsPossibleIff | hermes_wecom_code_governor/worktree.py:132-138 | a merge is possible if and only if the checkout and the task's last commit are on one line, and changes nothing when the checkout contains the commit already |
| Guarantees.CheckoutStays | hermes_wecom_code_governor/worktree.py:298-302 | while HEAD is on a branch and nobody switches, the checked-out branch stays the same over a run |
| Guarantees.MergedIntoBaseIff | hermes_wecom_code_governor/worktree.py:132-138 | after a merge the recorded base branch contains the task's last commit if and only if it was checked out, or contained it already |
| Guarantees.MergedIntoBase | hermes_wecom_code_governor/worktree.py:126-154 | in particular without a switch after the branch check |
| History.MergedMeansLanded | hermes_wecom_code_governor/worktree.py:132-154 | in every run that reports MERGED there was a merge command of the task, and the branch checked out at that moment, unless it is a task branch, contains the task's last commit at the end of the run |
| History.MergedIsInBaseIff | hermes_wecom_code_governor/worktree.py:132-154 | for every merge command of every run: the recorded base branch contains the commit behind it if and only if it was checked out at that moment or contained it already, and then it still does at the end of the run |
| History.MergedIsInBase | hermes_wecom_code_governor/worktree.py:298-302 | if the base branch was checked out at some point before that merge and nobody switched until it, the recorded base branch contains the commit at the end of the run |
| Guarantees.RefusalKeepsEverything | hermes_wecom_code_governor/worktree.py:110-144 | VALIDATION_FAILED, SAFETY_BLOCKED and MERGE_FAILED change no branch and no worktree, and leave the task its worktree and branch for a retry |
| Guarantees.OnlyMergeTouchesOtherBranches | hermes_wecom_code_governor/worktree.py:105-131 | before its merge, a call changes no branch but its own |
| Guarantees.RemovedWorktreesAreCommitted | hermes_wecom_code_governor/worktree.py:319-321 | a worktree disappears only when its files are those of the tip of its branch |
| Guarantees.TasksAreSeparate | hermes_wecom_code_governor/worktree.py:70-76 | two tasks under way never share a branch or a worktree path |
| Guarantees.RetryEndsWellIff | hermes_wecom_code_governor/worktree.py:114-116 | a retry of committed work sees no changes and removes the worktree; with nothing in between, it can then delete the branch and report NO_CHANGES if and only if HEAD contains the task's last commit, and otherwise leaves the branch without a worktree |
| Guarantees.StrandedForEver | hermes_wecom_code_governor/worktree.py:317-324 | a task branch that has lost its worktree is never finished by any run, and its commits stay |
| Scenarios.UndisturbedChangeIsCommitted | hermes_wecom_code_governor/worktree.py:110-131 | a change within the limits that nobody disturbs passes every check and is committed |
| Scenarios.DetachedHeadLosesTheCommit | hermes_wecom_code_governor/worktree.py:317-324 | a run that ends in MERGED with a commit that no branch contains |
| Scenarios.SwitchedCheckoutTakesTheMerge | hermes_wecom_code_governor/worktree.py:126-154 | a run that ends in MERGED while the recorded base branch lacks the commit |
| Scenarios.RetryStrandsTheTask | hermes_wecom_code_governor/worktree.py:114-116 | a run in which the merge fails behind the commit and the retry, with HEAD on the unmoved base branch, leaves the task branch without a worktree for good |
| Scenarios.MissingSeedLeavesTheWorktree | hermes_wecom_code_governor/worktree.py:88-103 | a run in which `begin` fails on a missing seed with branch and worktree in place |
| Guarantees.OwnedNameIsTaken | hermes_wecom_code_governor/worktree.py:70-76 | while a task owns its branch, nobody can create a worktree under its name, whatever others do |
| Bounds.LandsFromBase | hermes_wecom_code_governor/worktree.py:132-138 | on an unmoved base branch a merge succeeds and changes exactly the difference between the recorded base commit and the task's last commit |
| Bounds.LandsWithinLimitsIff | hermes_wecom_code_governor/worktree.py:121-138 | what a task that is about to commit lands on the unmoved base branch is within the limits if and only if its worktree is within them against the recorded base commit, after any number of attempts and whatever others do before the merge |
| Bounds.BoundIsReached | hermes_wecom_code_governor/worktree.py:139-144 | for all limits and every number n of attempts, a run whose merge changes exactly n times the limit and deletes as many as the limits allow |
| Bounds.SecondAttemptExceedsTheLimit | hermes_wecom_code_governor/worktree.py:139-144 | for all limits, a run whose second attempt lands more than the limits allow |
| Seeding.RequireSafeSeedPaths | hermes_wecom_code_governor/seeding.py:7-11 | accepts exactly relative paths without `..` and `.git` |
| Seeding.SafePathsStayBelow | hermes_wecom_code_governor/seeding.py:7-11 | a path that passes the check leads below the project directory and into no `.git`, and every such place has a path that passes |
| Seeding.SeedWorkspace | hermes_wecom_code_governor/seeding.py:14-41 | succeeds exactly when every seed resolves inside the project and is there already or can be copied; copies the new ones in order up to the first that cannot be had |
| Seeding.NewPathsAreThoseMissing | hermes_wecom_code_governor/seeding.py:22-34 | what is copied are the paths of the seeds that the worktree does not have, in order |
| Seeding.SafeSeedMayBeMissing | hermes_wecom_code_governor/seeding.py:22-25 | a path that passes the check and still cannot be had |
| Worktrees.SelectBaseBranch | hermes_wecom_code_governor/worktree.py:199-207 | a configured branch is taken if it exists, and nothing otherwise; without one, dev comes before main and main before master, and nothing is taken only when none exists |
| Worktrees.NoChangesMeansEqual | hermes_wecom_code_governor/worktree.py:114-116 | a count of zero means that the worktree equals its commit |
| Worktrees.WorktreeManager.constructor | hermes_wecom_code_governor/worktree.py:50-51 | starts with an empty log |
| Worktrees.WorktreeManager.Begin | hermes_wecom_code_governor/worktree.py:53-103 | success needs a safe name, safe seeds, and the base branch seen checked out and then clean, and creates branch and worktree by one command; once they exist, it succeeds if and only if every seed can be had; every other failure leaves no trace of the call |
| Worktrees.WorktreeManager.SeeBaseReady | hermes_wecom_code_governor/worktree.py:60-67 | selects the base branch and goes on only after having seen it checked out and then the checkout clean |
| Worktrees.WorktreeManager.ReadStartCommit | hermes_wecom_code_governor/worktree.py:69-69 | the recorded base commit is the tip of the base branch at that moment |
| Worktrees.WorktreeManager.AddTaskWorktree | hermes_wecom_code_governor/worktree.py:70-87 | the checks for a free branch and path, and the command that creates both or nothing |
| Worktrees.WorktreeManager.ChangeCounts | hermes_wecom_code_governor/worktree.py:218-224 | gives the numbers of changed and deleted paths against the branch tip and moves the call accordingly |
| Worktrees.WorktreeManager.RunValidation | hermes_wecom_code_governor/worktree.py:226-234 | the diff check and all commands run, and files may change meanwhile, unless one fails; then that one is the last |
| Worktrees.WorktreeManager.ReadCurrentBranch | hermes_wecom_code_governor/worktree.py:300-302 | the call goes on only when the base branch is checked out |
| Worktrees.WorktreeManager.ReadCheckoutStatus | hermes_wecom_code_governor/worktree.py:303-304 | the call goes on only when the checkout is clean |
| Worktrees.WorktreeManager.ReadBaseCommit | hermes_wecom_code_governor/worktree.py:305-307 | the call goes on only when the base branch is at the recorded commit |
| Worktrees.WorktreeManager.CheckMergePreconditions | hermes_wecom_code_governor/worktree.py:298-308 | the three reads in order, stopping at the first that objects or fails |
| Worktrees.WorktreeManager.Commit | hermes_wecom_code_governor/worktree.py:310-315 | commits, or ends the call with an exception |
| Worktrees.WorktreeManager.MergeIntoCheckout | hermes_wecom_code_governor/worktree.py:132-144 | merges along ancestry only, or ends the call with MERGE_FAILED |
| Worktrees.WorktreeManager.PushBase | hermes_wecom_code_governor/worktree.py:150-166 | the call ends if and only if a push is wanted and no base branch is found; a push that the remote refuses does not end it |
| Worktrees.WorktreeManager.RemoveWorktree | hermes_wecom_code_governor/worktree.py:319-321 | removes a clean worktree or ends the call with an exception |
| Worktrees.WorktreeManager.DeleteBranch | hermes_wecom_code_governor/worktree.py:322-324 | deletes a branch that HEAD contains or ends the call with an exception |
| Worktrees.WorktreeManager.Cleanup | hermes_wecom_code_governor/worktree.py:317-324 | first the worktree, then the branch; the second is not tried when the first fails |
| Worktrees.WorktreeManager.Land | hermes_wecom_code_governor/worktree.py:130-154 | from the commit on, exactly the commands that belong to the outcome |
| Worktrees.WorktreeManager.Complete | hermes_wecom_code_governor/worktree.py:105-154 | whatever others do in between, the call issues exactly one of the command sequences of its outcome, and the log stays a run of the protocol; MERGED only when all validations passed |
| SessionState.LoadOfSave | hermes_wecom_code_governor/state.py:35-106 | a record is read back as saved if and only if thread implies worktree, worktree implies its project, no field is empty and the project is the catalogue's |
| SessionState.LoadedIsSound | hermes_wecom_code_governor/state.py:35-83 | whatever payload is accepted, the record is consistent, and saving and loading it gives it back |
| SessionState.LoadIff | hermes_wecom_code_governor/state.py:35-83 | a payload is read as a record if and only if it has exactly these fields and the record is consistent, filled and known; every other payload is rejected |
| SessionState.RawTaskOfLoaded | hermes_wecom_code_governor/state.py:54-70 | an accepted payload holds a readable worktree exactly when the record has one, and it is the same |
| SessionState.RawTaskOfSaved | hermes_wecom_code_governor/state.py:85-106 | a saved record without a worktree leaves no worktree in the payload, a filled one leaves exactly its own |
| SessionState.SessionStateRepository.LoadRecord | hermes_wecom_code_governor/state.py:35-83 | gives a saved record back if and only if it is consistent, filled and known; whatever it gives is so, has the worktree that the payload holds, and survives being saved and loaded again |
| SessionState.SessionStateRepository.SaveRecord | hermes_wecom_code_governor/state.py:85-106 | the next load gives a storable record back, and no other session is touched |
| Policy.PermissionsAddUp | hermes_wecom_code_governor/policy.py:90-120 | permissions add up group by group; one group gives a project to the users that it lists, in the chats that it lists or in all, when it names the project or all projects or a root above the project |
| Runtime.RunnersExcludeTasks | hermes_wecom_code_governor/runtime.py:544-562 | in all four cases of `_record`, no inspector, job, push, remote or HTTP runner is called while the stored payload holds a worktree |
| Runtime.StoredTaskSurvivesIff | hermes_wecom_code_governor/runtime.py:172-640 | a call keeps the stored worktree if and only if it is none of: a context call or tool selection that cannot use the record, a completion with MERGED or NO_CHANGES |
| Runtime.StoredTaskSurvivesRuns | hermes_wecom_code_governor/runtime.py:172-640 | over any run without such a call the stored worktree stays the same |
| Runtime.CoveredTaskSurvivesRuns | hermes_wecom_code_governor/runtime.py:172-640 | while catalogue and permissions cover the stored project for every acting member, no run of calls removes or replaces the stored worktree, except by MERGED or NO_CHANGES |
| Runtime.OtherSessionsAreLeftAlone | hermes_wecom_code_governor/runtime.py:366-640 | a call changes the payload of its own session only |
| Runtime.CallKeepsStoreOk | hermes_wecom_code_governor/runtime.py:172-640 | every call stores only records in which a thread implies a worktree and a worktree its project |
| Runtime.EveryStoredRecordRoundTrips | hermes_wecom_code_governor/runtime.py:403-433 | over any run, every stored payload comes from such a record and is read back as it exactly when it is filled and its project is known |
| Runtime.UnfinishedTaskResumes | hermes_wecom_code_governor/runtime.py:574-640 | after a question, a refusal or an exception in `complete`, the next call finds the same worktree and the new thread |
| Runtime.SelectionKeepsProjectOfTask | hermes_wecom_code_governor/runtime.py:388-412 | a selection never switches project, worktree or thread under an active task |
| Runtime.GuestDropsTheTask | hermes_wecom_code_governor/runtime.py:172-186 | a group member without access to the project drops the stored worktree by starting a turn |
| Ledger.CallIsEntered | hermes_wecom_code_governor/runtime.py:172-640 | a call of a member who may use the record changes project, worktree and thread in the payload exactly as its ledger entries say (selected, begun, answered, ended), and the payload then names the acting member |
| Ledger.RunIsEntered | hermes_wecom_code_governor/runtime.py:172-640 | so does every run, from an empty store on: the payload of a session is what its ledger says |
| Ledger.PayloadHoldsLastSelection | hermes_wecom_code_governor/runtime.py:403-411 | over every such run, the project in a payload is that of the last successful selection, whatever tasks are begun, worked on and ended after it |
| Ledger.UnusableTurnStartsAfresh | hermes_wecom_code_governor/runtime.py:904-910 | a context call of a member who may not use the record leaves an empty record for this member |
| Ledger.UnreadableSelectionStartsAfresh | hermes_wecom_code_governor/runtime.py:366-370 | a selection over a payload that does not load leaves the chosen project and no task |
| Governor.GovernorRuntime.Record | hermes_wecom_code_governor/runtime.py:904-910 | the loaded record when it loads, is of this chat and is authorised, otherwise a blank one |
| Governor.GovernorRuntime.ResolveAuthorizedProject | hermes_wecom_code_governor/runtime.py:925-930 | gives the first project in catalogue order that is authorised and has this id or name, blanks aside, and fails only when there is none |
| Governor.GovernorRuntime.PreLlmCall | hermes_wecom_code_governor/runtime.py:172-186 | changes the store exactly as `Runtime.After` says |
| Governor.GovernorRuntime.SelectProject | hermes_wecom_code_governor/runtime.py:366-370 | changes the store exactly as `Runtime.After` says; when it succeeds, the next load gives the project that the value denotes with worktree and thread of before, or alone when nothing loaded before |
| Governor.GovernorRuntime.SelectProjectForSession | hermes_wecom_code_governor/runtime.py:388-412 | changes the store exactly as `Runtime.After` says; when it succeeds, the next load gives the project that the value denotes, with worktree and thread of before; a refusal leaves the store alone, and has its reason |
| Governor.GovernorRuntime.BeginTaskIn | hermes_wecom_code_governor/runtime.py:414-440 | changes the store exactly as `Runtime.After` says; begins no worktree when one is stored |
| Governor.GovernorRuntime.CompleteTaskIn | hermes_wecom_code_governor/runtime.py:442-468 | changes the store exactly as `Runtime.After` says; clears the record only for MERGED and NO_CHANGES, and succeeds if and only if there is a task and its completion does not raise |
| Governor.GovernorRuntime.Change | hermes_wecom_code_governor/runtime.py:574-647 | changes the store exactly as `Runtime.After` says, for begin, Codex and completion in one call |
| Governor.GovernorRuntime.SelectedProject | hermes_wecom_code_governor/runtime.py:544-562 | lets a runner go ahead only when the session stored no worktree before the call |
| Sessions.FinishStores | hermes_wecom_code_governor/runtime.py:425-433 | the worktree that a call with a task leaves in its payload, if any, is that of its task, which is still under way |
| Sessions.MoveKeepsOfficeOk | hermes_wecom_code_governor/runtime.py:414-640 | whatever sessions, calls and outsiders do next, every stored payload with a worktree stands for a task under way, and no two sessions store or work on the same one |
| Sessions.SessionsRunTheProtocol | hermes_wecom_code_governor/worktree.py:53-154 | whatever the sessions do, what happens in the repository is a run of the protocol, so that all guarantees over runs hold |
| Sessions.CallsWriteTheirOwnPayload | hermes_wecom_code_governor/runtime.py:414-640 | a payload changes only when a call of its own session ends, and to what that call stores |
| Sessions.StoredWorktreeHasItsBranch | hermes_wecom_code_governor/worktree.py:317-324 | from an empty store on and after any run, the worktree in a session's stored payload has its branch in the repository whenever the session is between calls |
| Sessions.SessionsNeverShareATask | hermes_wecom_code_governor/worktree.py:69-97 | from an empty store on and after any run, the stored payloads of two sessions between calls never name the same branch, nor the same task of the same project |
| Outbox.DeliveriesAreConserved | hermes_wecom_code_governor/runtime.py:708-708 | over any run, deliveries taken for a message followed by those queued are those queued for it in order, and no empty queue is kept |
| Outbox.TakeGivesNothingIff | hermes_wecom_code_governor/runtime.py:888-895 | taking gives nothing if and only if everything queued for the message was taken |
| Outbox.PendingDeliveries.Add | hermes_wecom_code_governor/runtime.py:879-879 | appends to the queue of the delivery's own message |
| Outbox.PendingDeliveries.TakeFor | hermes_wecom_code_governor/runtime.py:888-895 | takes the oldest delivery, gives nothing only when all were taken |
| Outbox.RememberedIsLastSent | hermes_wecom_code_governor/runtime.py:146-153 | the remembered message of a kind and session is that of the last notice that was sent |
| Outbox.SentIff | hermes_wecom_code_governor/runtime.py:146-153 | a notice is sent if and only if sending works and the last one sent of its kind to its session was not for the same named message |
| Outbox.RepeatedNoticesAreSeparated | hermes_wecom_code_governor/runtime.py:146-153 | two sent notices of one kind, session and named message always have one for another message between them |
| Outbox.Notices.NotifyOnce | hermes_wecom_code_governor/runtime.py:146-153 | sends exactly when not suppressed and the notifier works; a failure is not remembered |
| Selection.PendingIffLive | hermes_wecom_code_governor/selection.py:60-102 | over any run, a card is pending if and only if it was registered and since then neither replaced, used nor found expired, and it is the card registered last |
| Selection.ChosenIff | hermes_wecom_code_governor/selection.py:77-102 | a press selects a project if and only if the card is live and not too old, was shown to the same identity and offers the project; the live card decides every answer with its session, and a selection gives the name on the card; without one the answer is expired |
| Selection.SelectsAtMostOnce | hermes_wecom_code_governor/selection.py:77-102 | between two selections under one identifier the card is registered anew |
| Selection.CurrentIsLastSelection | hermes_wecom_code_governor/selection.py:104-121 | a session's project is that of its last successful selection, for the identity that made it and for nobody else |
| Selection.NothingSelectedYet | hermes_wecom_code_governor/selection.py:116-121 | before the first successful selection a session has no project |
| Selection.ProjectSelectionService.RegisterCard | hermes_wecom_code_governor/selection.py:60-75 | replaces whatever was pending under the identifier |
| Selection.ProjectSelectionService.ResolveCard | hermes_wecom_code_governor/selection.py:77-102 | gives the result that the history determines, and uses the card up only by a selection or by expiry |
| Selection.ProjectSelectionService.SelectExplicitly | hermes_wecom_code_governor/selection.py:104-114 | succeeds exactly for an authorised project |
| Selection.ProjectSelectionService.CurrentProjectId | hermes_wecom_code_governor/selection.py:116-121 | reads the selection of the session for this identity |
| TaskId.BuildTaskId | hermes_wecom_code_governor/runtime.py:63-78 | the loop computes the normalised title, and fails exactly when nothing of it remains |
| TaskId.SeparatorRunsNeverOccur | hermes_wecom_code_governor/runtime.py:66-74 | collapsing separator runs changes nothing, because the loop never emits two separators |
| TaskId.ScanKeepsEveryCharacter | hermes_wecom_code_governor/runtime.py:66-73 | no meaningful character is lost, added or moved |
| TaskId.SeparatorsCountOnce | hermes_wecom_code_governor/runtime.py:66-73 | other characters count for nothing at the ends, and in between as one separator, however many there are and whichever they are |
| TaskId.NormalizeIsCanonical | hermes_wecom_code_governor/runtime.py:74-77 | at most `max` characters, no dash or dot at an end, empty only if nothing was there before cutting |
| TaskId.NormalizeIsLongest | hermes_wecom_code_governor/runtime.py:74-75 | of a title that is too long the beginning is kept, the longest that ends in neither a dash nor a dot |
| TaskId.NormalizeIsIdempotent | hermes_wecom_code_governor/runtime.py:63-78 | normalising again changes nothing |
| TaskId.TitlePartsAreCanonical | hermes_wecom_code_governor/runtime.py:63-78 | the title parts that can come out are exactly the canonical texts within the length |
| TaskId.BuiltNamesAreSafe | hermes_wecom_code_governor/worktree.py:54-55 | every built name passes the check of `begin` |
| TaskId.NamesTellTheDay | hermes_wecom_code_governor/runtime.py:78-78 | a name is month and day in two digits each, a dash, and the title part |
| Text.TrimIsExact | hermes_wecom_code_governor/execution.py:11-11 | trimming leaves what is between the first and the last character that is not dropped, or nothing |
| Decimal.PrintedNatHasItsValue | hermes_wecom_code_governor/http_action.py:54-54 | a printed number has its value |
| Template.TemplatePlaceholders | hermes_wecom_code_governor/config.py:327-348 | the loop accepts exactly the well-formed templates with plain names and collects exactly their names |
| Template.AcceptedIff | hermes_wecom_code_governor/config.py:327-348 | a template is accepted if and only if it is spelled from characters, with braces doubled, and well-named holes without format or conversion, and then it is read as these |
| Template.ParseOfPrint | hermes_wecom_code_governor/config.py:330-336 | printing any list of characters and holes, with doubled braces, and parsing it gives the list back, and the text is accepted |
| Template.AcceptedTemplatesRender | hermes_wecom_code_governor/http_action.py:66-67 | rendering an accepted template with a value for every hole never fails and puts exactly the values into the holes |
| Template.CanonicalTemplate | hermes_wecom_code_governor/config.py:327-348 | printing what an accepted template means gives an accepted template that means and renders the same |
| Template.NamesAreHoles | hermes_wecom_code_governor/config.py:334-348 | the collected names are those of the holes |
| Template.FillKeepsSkeleton | hermes_wecom_code_governor/http_action.py:66-67 | values of safe characters leave the other characters and their order alone |
| HttpAction.CheckAction | hermes_wecom_code_governor/config.py:351-380 | the loops accept an action exactly when its parameters are well formed and distinct and its placeholders are the declared names |
| HttpAction.ParseOfPrintedInt | hermes_wecom_code_governor/http_action.py:45-54 | printing an integer, negative ones included, and parsing the text gives it back |
| HttpAction.NumeralsMayBeSpelled | hermes_wecom_code_governor/http_action.py:45-46 | a sign, leading zeros and single underscores between digits change nothing but the sign |
| HttpAction.OnlyNumeralsAreUnderstood | hermes_wecom_code_governor/http_action.py:45-48 | nothing but a sign, digits and underscores between two digits is read as an integer |
| HttpAction.ValuesAreShown | hermes_wecom_code_governor/http_action.py:41-60 | an integer is accepted if and only if it is within the bounds, as a number or as text, and is rendered as its own plain numeral; a choice if and only if it is one of the choices, and is rendered as it is |
| HttpAction.NumbersMayBePassedAsText | hermes_wecom_code_governor/http_action.py:41-54 | the decimal text of a number denotes this number and no other, and is accepted and rendered like it |
| HttpAction.AcceptedValuesAreSafe | hermes_wecom_code_governor/config.py:266-270 | every accepted value is rendered with letters, digits, `_`, `.` and `-` only |
| HttpAction.RenderedValues | hermes_wecom_code_governor/http_action.py:29-61 | values are accepted exactly when the passed names are the declared ones and each value is permitted; each is rendered as a text that stands for it; each error names a parameter at fault |
| HttpAction.RequestsAlwaysRender | hermes_wecom_code_governor/http_action.py:63-68 | an accepted action with accepted values always gives a request, with URL and body as the templates mean them |
| HttpAction.AcceptedActionsCanBeCalled | hermes_wecom_code_governor/config.py:351-380 | for every accepted action there are values that it accepts |
| HttpAction.RequestsGoToHttp | hermes_wecom_code_governor/config.py:362-363 | the address of every request begins with http:// or https://, whatever the values are |
| HttpAction.ValuesNeverChangeTheStructure | hermes_wecom_code_governor/http_action.py:63-68 | any two accepted sets of values give the same delimiters in the same order in URL and body |
| Discovery.Submodules | hermes_wecom_code_governor/discovery.py:59-84 | only submodules below the authorised root and outside the exclusions |
| Discovery.Discoverer.RecordRepository | hermes_wecom_code_governor/discovery.py:103-114 | terminates on cyclic graphs and adds exactly the repositories reached through submodules, or exceeds the limit with repositories that are all reached |
| Discovery.Discoverer.Walk | hermes_wecom_code_governor/discovery.py:119-141 | everything the walk finds is recorded, nothing else is but what is reached from it, and the closure under submodules is kept |
| Discovery.FoundIsUnder | hermes_wecom_code_governor/discovery.py:119-127 | what the walk finds is below its start and not excluded |
| Discovery.ReachedIsRecorded | hermes_wecom_code_governor/discovery.py:92-97 | a repository recorded earlier under a shorter root loses nothing: all that is reached below a later root is recorded too |
| Discovery.Discover | hermes_wecom_code_governor/discovery.py:87-145 | the result is exactly the set of repositories that belong to an authorised root, each recorded under the first root it belongs to, below it, and closed under admissible submodules; refused exactly when there are more than the limit |
| Catalogue.BuildProjectCatalogue | hermes_wecom_code_governor/config.py:48-90 | configured projects first, then one entry per new path in order; refused exactly when an identifier is already used |
| Catalogue.CatalogueIsSound | hermes_wecom_code_governor/config.py:68-90 | identifiers stay unique, every discovered repository is covered, new entries duplicate no configured path |
| Catalogue.EntriesAreNamed | hermes_wecom_code_governor/config.py:77-87 | every new entry has its own path and identifier, no push, and its path below the root (for the root itself its last name) as its name, with the last six characters of the identifier exactly when an earlier project has that name |
| Catalogue.NamesBelowOneRootDiffer | hermes_wecom_code_governor/discovery.py:39-42 | two repositories below one root never have the same path name |
| Catalogue.NamesStayUniqueIff | hermes_wecom_code_governor/config.py:77-79 | names stay unique if and only if no repository finds both its name and its tagged name taken by the configured projects and the repositories before it |
| Catalogue.TwoProjectsMayShareAName | hermes_wecom_code_governor/config.py:77-79 | for every repository and all identifiers, configured projects with different names and identifiers with which two projects share a name |
| Masking.ReplaceIsSplitAndJoin | hermes_wecom_code_governor/project_job.py:366-367 | leftmost replacement is splitting at the secret and joining with stars |
| Masking.ReplaceFirst | hermes_wecom_code_governor/project_job.py:366-367 | replacement puts three stars for the leftmost occurrence and goes on behind it |
| Masking.ReplaceNeverCreates | hermes_wecom_code_governor/project_job.py:365-367 | replacing any text never makes a maskable secret appear, and removes it when it is the one replaced |
| Masking.MaskStreams | hermes_wecom_code_governor/project_job.py:364-367 | after the loop no maskable secret is in either stream, and a stream without secrets is unchanged |
| Masking.MaskingGoesOneByOne | hermes_wecom_code_governor/project_job.py:365-367 | masking with several secrets is replacing them one after the other in the order given |
| Masking.SurvivesAloneIff | hermes_wecom_code_governor/project_job.py:366-366 | some text still shows a secret after its own replacement if and only if it has a star at an end or three stars inside |
| Masking.AlwaysMaskedIff | hermes_wecom_code_governor/project_job.py:361-367 | a secret is gone from every text next to any other secrets if and only if it is maskable |
| Masking.JoinedIsExact | hermes_wecom_code_governor/execution.py:11-11 | the joined text is the trimmed stdout, the trimmed stderr, and one line break between them exactly when neither is empty |
| Masking.JoiningIsSafeIff | hermes_wecom_code_governor/execution.py:11-11 | joining two streams without the secret never shows it if and only if no line break in it stands between characters that are not blank |
| Masking.CombinedOutputKeepsTheEnd | hermes_wecom_code_governor/execution.py:9-15 | output of at most 12000 characters is shown whole; of longer output the last 12000 are shown behind one line whose numeral tells how many are missing |
| Masking.CombinedOutputShowsOnlyTheHeader | hermes_wecom_code_governor/execution.py:9-15 | wherever the cut falls, a maskable secret without line breaks is in the output if and only if the line that counts omitted characters spells it |
| Masking.HeaderShowsASecret | hermes_wecom_code_governor/execution.py:13-15 | a word of the line that counts omitted characters is a maskable secret, and the line shows it whatever the count is |
| Masking.ResolvedEnvironment | hermes_wecom_code_governor/project_job.py:395-416 | the variables keep names and order; the secrets to mask are exactly the non-empty texts of the secret files, without final line breaks, in order; fails exactly for a missing file |
| Inspector.WalkVisits | hermes_wecom_code_governor/project_inspector.py:144-148 | the walk visits exactly the files outside skipped and denied folders |
| Inspector.WalkIsInOrder | hermes_wecom_code_governor/project_inspector.py:143-148 | the walk visits every file outside skipped folders once, a folder's own files before those of its folders, and these folder by folder |
| Inspector.AllMatchesIsExact | hermes_wecom_code_governor/project_inspector.py:149-179 | the full list holds exactly the matching lines of the searchable files, each with its path, its number counted from one, and its first 1000 characters |
| Inspector.Search | hermes_wecom_code_governor/project_inspector.py:118-181 | the result tells of the first matching lines in the order of the walk, each with path, number counted from one and first 1000 characters; of all of them, or of as many as the limit, and exactly then it is called truncated |
| Inspector.TruncatedIsCompleteIff | hermes_wecom_code_governor/project_inspector.py:179-180 | a search called truncated has left nothing out if and only if there are exactly as many matches as the limit |
| Inspector.CompleteSearchIsCalledTruncated | hermes_wecom_code_governor/project_inspector.py:179-180 | a folder and a query with as many matches as the limit of one |
| Inspector.PageOf | hermes_wecom_code_governor/project_inspector.py:105-116 | a page holds the lines from its start on, at most as many as asked for, is truncated exactly when lines remain behind it, and the line numbers fit |
| Inspector.MatchLeadsToItsLine | hermes_wecom_code_governor/project_inspector.py:105-116 | reading on from the line number of a match gives the matching line first |
| Inspector.Read | hermes_wecom_code_governor/project_inspector.py:74-116 | succeeds exactly for allowed arguments and readable files, with one page of each in order |
| Inspector.PagesGiveTheRest | hermes_wecom_code_governor/project_inspector.py:105-116 | going on after each page gives every line of the file once and in order |
| Inspector.OnlyTheLastPageIsLast | hermes_wecom_code_governor/project_inspector.py:113-113 | every page but the last is full and truncated, the last is not truncated |
| Inspector.ContentsGiveTheRest | hermes_wecom_code_governor/project_inspector.py:114-114 | the contents of the pages, joined with line breaks, are the joined file |
| Guard.ParseOfPrint | hermes_wecom_code_governor/guard.py:134-138 | the text of an absolute place is parsed as that place |
| Guard.NamesOfJoin | hermes_wecom_code_governor/guard.py:90-93 | the names of a path text are those before and behind a slash, without empty names and dots; one slash in front, or three and more, make it absolute |
| Guard.DotsCancel | hermes_wecom_code_governor/guard.py:93-93 | a name and the `..` behind it may be left out, and so may `..` at the top |
| Guard.RelativeTextsGoBelowTheRoot | hermes_wecom_code_governor/guard.py:91-93 | a relative text stands for what it stands for behind the text of the root |
| Guard.HomeTextsGoBelowTheHome | hermes_wecom_code_governor/guard.py:90-90 | a text that starts with a tilde stands for a place below that home directory |
| Guard.UnknownHomesHaveNoPlace | hermes_wecom_code_governor/guard.py:90-90 | such a text has no place if and only if the home directory cannot be found |
| Guard.RewritingKeepsThePlace | hermes_wecom_code_governor/guard.py:134-138 | a rewritten path is absolute, stands for the same place, and is not changed by rewriting again |
| Guard.AllowedIff | hermes_wecom_code_governor/guard.py:96-124 | a call that changes files is allowed if and only if there is a worktree and every path in it is confined to the worktree, a call that reads if and only if its path is confined to the project |
| Guard.EvaluateFileTool | hermes_wecom_code_governor/guard.py:96-124 | allows exactly what is confined to the directory that the call belongs in, and raises exactly when the first path that is not confined is below an unknown home directory, the paths of Move headers being checked last |
| Rewriting.RereadOfPrint | hermes_wecom_code_governor/guard.py:118-120 | the text of a place, read from a header, stands for that place with the blanks at the end of its last name gone |
| Rewriting.RewrittenPathStaysAllowed | hermes_wecom_code_governor/guard.py:153-174 | an allowed call with one path keeps its tool and gets the text of the place that its path stands for, inside the worktree for a call that changes files and inside the project for one that reads; it is still allowed, and rewriting leaves it alone |
| Rewriting.RewrittenPatchStaysAllowedIff | hermes_wecom_code_governor/guard.py:108-124 | every header path of a rewritten allowed patch is the text of the place inside the root that the original stood for, read from its header it stands for that place without blanks at the end, and the rewritten patch is allowed if and only if none of the places is the root ending in a blank or an entry of it called `..` and blanks |
| Rewriting.RewrittenCallsStayAllowedIff | hermes_wecom_code_governor/guard.py:141-174 | every allowed call of a file tool can be rewritten and belongs in the same directory as before; exact conditions for the result to be allowed and to be stable |
| Rewriting.PatchTwiceIsOnceIff | hermes_wecom_code_governor/guard.py:141-150 | rewriting a rewritten patch changes nothing if and only if none of its paths ends in a blank |
| Rewriting.BlankEndChangesThePlace | hermes_wecom_code_governor/guard.py:143-143 | a header path that is rewritten to a text which means another file in the root when it is read again |
| Rewriting.RewrittenPatchMayBeBlocked | hermes_wecom_code_governor/guard.py:118-124 | an allowed patch whose rewritten form is blocked |

## Left out

Git and its surroundings:

- the git index, rename detection and ignored files: a tree is the set of tracked and untracked, not ignored files, and status compares two trees
- commit hooks, and commits that come out equal: commit identifiers are always new, and a commit records the counted files
- an upstream set by `branch.autoSetupMerge`: `branch -d` is taken to compare with HEAD
- git commands and the reads of the precondition check are atomic; choosing the base branch is one read
- outsiders who rewrite history, delete branches or work inside a task's worktree; files of a worktree change only between calls and during validation
- base branches whose name starts with `bot/`, and limits that change while tasks are under way
- what a push does at the remote; Codex, sandboxing, SSH, HTTP transport, uploads and their results are arbitrary answers
- worktrees that other programs create, removal of the parent directories, and copying of a seed that fails half-way

Sessions and records:

- two calls of one session at the same time, also the press of a project card while a call of its session runs: a press is handled by the adapter and not as a tool call, so it may come in between
- a call's writes to the store before its end: `Sessions.dfy` lets a call write its record when it ends, all at once
- a write to the store that fails, in particular after MERGED, which would leave a finished task in the payload
- `Governor.dfy` treats `begin`, Codex and `complete` as arbitrary answers; `Sessions.dfy` ties these answers to the steps of the repository
- empty identifiers, threads and worktree fields: the parser rejects them on the next load (`SessionState.LoadIff`), and the ledger speaks of calls that store none
- hashing of the storage key and normalisation of the stored path text
- how cards are drawn and delivered, prompt text, message texts of results, logging, plugin registration, the WeCom adapter

Texts and files:

- YAML parsing and the field validators of the configuration, duplicate action names, timeouts: the model starts from parsed actions, parameters and projects
- rendering of templates with format specifications, conversions or compound names, which the load-time check refuses; those stop the model's renderer
- non-ASCII digits and the length limit of Python's `int`
- links in the file system: paths are resolved lists of names; `.gitmodules` is given as its sections
- the order in which `os.walk` lists directories, and sorting: lists are given in order, roots shortest first
- the slug and hash inside project identifiers, case folding, glob matching, home directories: parameters
- changes of the file system during a walk, a search or a read
- Guard: the recognition of header lines inside a patch text by regular expressions; a patch is given as its headers
- the shell command guard, path completion of `terminal` calls, artifact staging, media limits, host versions, listing of files and projects: only easy members
