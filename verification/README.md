# pycastle: a verified model

pycastle drives coding agents over git worktrees and GitHub issues. Its hard parts are state machines that must survive
crashes, run concurrently and move git references, and a few algorithms with a simple specification. This project models
them in Dafny and proves what they are for. `dafny verify dfyconfig.toml` checks everything.

## How it is laid out

| file | what it models |
|---|---|
| `RunLock.dfy` | the run-slot protocol: one global lock, a marker per project, probe locks, queue-jumping runs, the holder record |
| `CloseCascade.dfy` | many threads closing issues and their parents through one service object |
| `Commits.dfy`, `Worktrees.dfy` | commit graphs, references, worktrees, and the git commands on them |
| `WorktreeLifecycle.dfy` | entering, rebuilding, rebasing, leaving and tearing down worktrees |
| `MergePhase.dfy` | the merge batch, conflict recovery, closing of issues |
| `ImplementPhase.dfy` | parallel implement tasks, two nested semaphores, branch locks |
| `SessionRecords.dfy`, `DraftFiling.dfy` | the two-stage filing of a set of drafts, with crashes |
| `ImproveDriver.dfy` | the improve pipeline and its session directory, with crashes |
| `Text.dfy`, `SectionedMarkdown.dfy`, `NormalForm.dfy`, `TicketBody.dfy`, `SectionPlaces.dfy` | issue bodies as `## ` sections, when printing is a normal form, the body of a filed ticket, and where its sections stand |
| `PromptResolver.dfy` | prompt fragments that include one another, rendering, shell expressions |
| `WakeTime.dfy`, `CredentialPools.dfy`, `StageChain.dfy`, `ServiceRegistry.dfy` | usage limits, accounts, fallback chains, when to wake up |
| `RetryParse.dfy` | finding a tagged block in an agent's prose |
| `InvocationLog.dfy` | the agent log file with headers that are rewritten in place |
| `IssueLabels.dfy`, `LabelLaws.dfy` | readiness of issues, marker labels, verdicts of the slice classifier |
| `MapSum.dfy`, `Outcomes.dfy` | sums over maps, measures, optional values and results |

Concurrent code is a state machine: a state, an action of one participant, and statements about every finite run
(`IsBehavior`). Code that changes objects step by step is a class or a method with loops, proved against a specification
function or an invariant. Crashes and other participants are nondeterministic choices between any two effects: `Dies` in
filing and the improve loop, `Others` between git commands.

`Worktrees.Git` records the history of the repository, every answer of git, and every merge that was tried; what a procedure
does and why it fails is stated over these. Its validity says that in every step history only grows, the
operating branch only moves to descendants, and an issue branch moves to descendants or is, from then on, contained in
the operating branch. The two dangerous commands, deleting a branch and a hard reset, have as precondition that the
branch is expendable, so each procedure that verifies has its guards in the right place even with other tasks at work in
between.

## What was found

Where the code does less than one would expect of it, the model follows the code, and the exact condition is proved.

- Rendering a filed ticket body a second time loses the text in front of the first heading when the draft has no heading
  but `## Parent`: the first round puts the parent section before that text, which becomes its content. `FiledBodyIsStable`
  has the exact condition, `LeadIsLost` what is left.
- A ticket that names a draft which is not in front of it makes the filing call fail, after the earlier tickets were
  filed, although the draft set passed validation: validation only asks that the handle is known. `FileDraftSet` finishes,
  when it does not crash, if and only if every ticket names earlier drafts only.
- The improve cursor moves on durably before a candidate's drafts are filed, and no step of a candidate behind the cursor
  is handed out again. So in any session a candidate behind the cursor is marked complete, and is then fully filed and
  labelled, if and only if its one filing call was made, did not die, and every ticket names earlier drafts only; without
  the mark it is fully filed only when its call died after the last label (`FiledWhenCallEnded`, over all runs in
  `ImproveSession`). Two ways to lose a candidate are real sequences of driver calls: `CrashSkipsFiling`, and without any
  crash `SwappedDraftsSkipFiling`, which leaves a ticket without its state label.
- A role step whose worktree is rejected at planning time is not among the steps that run, so an issue counts as completed
  although a step of it was dropped. Each step of a completed issue has succeeded or was marked done before if and only if
  it was not rejected while it was still to be done (`CompletedWentThrough`). The case to expect is that both are
  rejected, so that no agent runs at all (`SetupFailureCounted`): `run_issue` hands one worktree path to both roles, and the
  decision looks at the path, not at the role. Reviewed and never implemented (`ReviewedWithoutImplementation`) is what
  the plan allows when the two looks at the path, or two paths given to `plan_issue_execution`, answer differently.
- The wake time of a stage can lie in the past when a model is restricted on some account: `earliest_wake_time` leaves no
  time out. It is in the future and finds something available if and only if the earliest of all exhaustion times of the
  candidates' accounts belongs to one that is not restricted for its candidate (`WakeIsNotTooEarly`;
  `RestrictionMakesWakeEarly` is an example).
- A cascade that closed a parent and then fails to look up or list for the next one leaves the parent marked as entered.
  The next ancestor stays open with all its sub-issues closed, and no later batch comes to it through that parent
  (`FailedLookupStrandsGrandparent`, `MarkedIsNotEntered`), although a comment in the code means failed cascades to be
  tried again. `BatchLeavesUnsettled` says which ancestors can be left so.
- An issue that the slice classifier promotes keeps its needs-slice-type marker if it carried one. The next preparation
  asks for exactly these removals (`NextRoundAfterVerdicts`).

## Model

| member | source | states |
|---|---|---|
| RunLock.RunsOverlapOnlyAsAllowed | src/pycastle/run_lock.py:162-278 | in every run of any number of processes, two runs in their bodies belong to different projects, at most one respects the lock, and beside it there are only queue-jumpers that took their marker after its last marker scan began |
| RunLock.ProbeIsTheHoldersAlone | src/pycastle/run_lock.py:76-92 | at most one probe lock exists; its owner holds the global lock and never probes its own marker |
| RunLock.RefusedOnlyByARealRun | src/pycastle/run_lock.py:65-73 | a lock-respecting run is refused its own marker only by a queue-jumping run of the same project that really holds it |
| RunLock.RecordNamesTheHolder | src/pycastle/run_lock.py:147-159 | a holder record names the global lock's holder or a process that crashed; without crashes always the holder |
| RunLock.CanAlwaysFinish | src/pycastle/run_lock.py:201-278 | no deadlock: from every state with the invariant all processes can end without a time-out, a refusal or a crash, and each that is still in front of its body then takes its marker and runs |
| RunLock.EveryRunLivesInOrder | src/pycastle/run_lock.py:201-278 | in every run of any number of processes, the steps a process has made so far are those of the one way through the protocol that its state shows; in particular nobody is in its body without having taken its marker |
| RunLock.DoneMeansRan | src/pycastle/run_lock.py:248-278 | a process that has ended without a time-out and without giving up has taken its marker and has left its body |
| CloseCascade.CascadeNeverClosesEarly | src/pycastle/services/github_service.py:348-401 | in every interleaving, failures and stale listings included, the cascade sends the close of a parent, successful or not, only when all its sub-issues are closed |
| CloseCascade.NoMarkOnAnOpenIssue | src/pycastle/services/github_service.py:389-401 | when all workers are done, a parent still marked as entered is closed, so a parent whose own close failed can be entered again |
| CloseCascade.LastChildClosesParent | src/pycastle/services/github_service.py:373-401 | whatever fails elsewhere, a parent of a closed issue whose sub-issues all ended up closed is closed, by exactly one worker, unless a close of it or a request made for one of its sub-issues failed |
| CloseCascade.AncestorsClose | src/pycastle/services/github_service.py:373-401 | the same for every ancestor up the line |
| CloseCascade.FailuresAreMoves | src/pycastle/services/github_service.py:373-401 | in every run, an issue counts as not closed, not asked for its parent or not listed for exactly when some earlier failed step was made by a worker closing it, asking for it or listing for it |
| CloseCascade.CascadesAreEntries | src/pycastle/services/github_service.py:389-401 | the counted entries into a parent, and the failed closes of it, are the steps at which a worker entered it and at which a cascading worker failed to close it |
| CloseCascade.BatchClosesItsIssues | src/pycastle/services/github_service.py:373-374 | every issue that a worker was started for ends up closed and remembered unless a close of it failed |
| CloseCascade.OnlyTheseAreClosed | src/pycastle/services/github_service.py:373-401 | nothing else is closed: an issue closed at any time was closed before, is one that a worker was started for, or is a parent with no open sub-issue |
| CloseCascade.BatchLeavesUnsettled | src/pycastle/services/github_service.py:373-401 | an ancestor left open although all its sub-issues are closed is one whose own close failed, or one of whose sub-issues could not be closed, asked for its parent, or listed with |
| CloseCascade.MarkStaysUnlessCloseFailed | src/pycastle/services/github_service.py:389-401 | every entry of a batch into a parent is a failed close or the one its mark stands for; the mark is there at the end if and only if one entry did not fail, and then the parent is closed |
| CloseCascade.MarkedIsNotEntered | src/pycastle/services/github_service.py:389-392 | a parent that is marked when a batch begins is not entered by it |
| CloseCascade.FailedLookupStrandsGrandparent | src/pycastle/services/github_service.py:373-401 | a run in which the lookup after a closed parent fails: the grandparent is open with all sub-issues closed, the parent stays marked |
| CloseCascade.BatchKeepsSettled | src/pycastle/iteration/merge.py:149-170 | a batch in which no close and no request fails keeps the tracker settled: whoever has sub-issues, all closed, is closed |
| CloseCascade.BatchIsBounded | src/pycastle/services/github_service.py:373-401 | every run of the workers is finite, on any parent graph |
| CloseCascade.NobodyIsStuck | src/pycastle/services/github_service.py:373-401 | until all workers are finished one of them can take a step |
| CloseCascade.OneChildClosesItsParent | src/pycastle/services/github_service.py:373-401 | such runs exist: one worker closes an only sub-issue and then its parent, with no failed request |
| Commits.AheadMeansNotContained | src/pycastle/services/git_service.py:292-307 | a branch has commits ahead of a base exactly when its tip is not contained in the base |
| Worktrees.NoWorkIsLost | src/pycastle/infrastructure/worktree.py:281-435 | over every run of steps of any tasks, no commit of the operating branch or of an issue branch is lost, and the operating branch only moves to descendants |
| Worktrees.TasksAreIndependent | src/pycastle/infrastructure/worktree.py:439-499 | what every command of one task guarantees is what a task with other branches and worktrees relies on |
| Worktrees.Git.DeleteBranch | src/pycastle/services/git_service.py:136-141 | called only on an expendable branch: a sandbox, or an issue branch whose commits are all on the operating branch; keeps everybody's work |
| Worktrees.Git.HardReset | src/pycastle/services/git_service.py:309-314 | called only on an expendable branch; on success the branch is at the commit and the worktree clean; keeps everybody's work |
| Worktrees.Git.CreateWorktree | src/pycastle/services/git_service.py:211-246 | takes the branch as it is or makes it at the requested commit, and touches nothing else |
| Worktrees.Git.Merge | src/pycastle/services/git_service.py:248-290 | reports a merge only if the branch afterwards contains both; one that needs no commit always succeeds and makes none; a conflict or a failure moves no branch |
| Worktrees.Git.Advance | src/pycastle/services/git_service.py:382-403 | moves the operating branch forward only, and leaves everything as it is when refused |
| Worktrees.Git.Commit | src/pycastle/services/git_service.py:540-558 | the new commit contains the branch's tip and the head of an unfinished merge |
| WorktreeLifecycle.RecreateStaleBranch | src/pycastle/infrastructure/worktree.py:281-297 | with others at work between the commands, the branch is deleted and made anew only when merged; an unmerged one is not moved |
| WorktreeLifecycle.RebaseReusedBranch | src/pycastle/infrastructure/worktree.py:309-327 | the branch ends up at the requested commit, or stays because it carries work of its own |
| WorktreeLifecycle.CreateIssueWorktree | src/pycastle/infrastructure/worktree.py:330-367 | a worktree is handed out only after project files were seen in it; a new one is fresh, on its branch, at the requested commit unless the branch carries unmerged work, which is not moved; a failure has its cause among the answers of git |
| WorktreeLifecycle.Settle | src/pycastle/infrastructure/worktree.py:359-367 | without project files an old branch is asked about to be made anew; then there is another look, whose answer decides, and a failure has its cause behind the first look |
| WorktreeLifecycle.CleanupStale | src/pycastle/infrastructure/worktree.py:388-410 | only for sandboxes; afterwards no worktree is left on disk at the path, and the branch is gone unless git refused to delete it |
| WorktreeLifecycle.Enter | src/pycastle/infrastructure/worktree.py:448-475 | a worktree with a session on its branch is handed out untouched; a merge sandbox is always new, without a session or an unfinished merge; sandboxes are on their own branch, at the requested commit unless git refused to delete the old one |
| WorktreeLifecycle.TeardownWorktreeBranch | src/pycastle/infrastructure/worktree.py:413-435 | a failed run's worktree, a dirty one and one with a session are left untouched; any other goes, and its branch with it, except an issue branch with unmerged work, which stays where it is |
| WorktreeLifecycle.ManagedWorktree | src/pycastle/infrastructure/worktree.py:438-499 | entry, an arbitrary run and the way out extend the history by work-keeping steps, however they end |
| WorktreeLifecycle.TeardownMergedBranch | src/pycastle/iteration/_merged_branch_teardown.py:25-67 | deletes the branch only if the operating branch contains it, with others at work between check and deletion |
| MergePhase.AdvanceThroughGate | src/pycastle/iteration/_utils.py:42-55 | on success everything the sandbox contained is on the operating branch |
| MergePhase.ClassifyCandidates | src/pycastle/iteration/merge.py:54-84 | tries to merge each candidate once, in order, and splits them by how that went; on success every clean one is merged |
| MergePhase.Tracker.CloseIssue | src/pycastle/iteration/merge.py:149-170 | called only for an issue whose branch the operating branch contains |
| MergePhase.DeleteMergedBranches | src/pycastle/iteration/merge.py:118-146 | each branch is asked about and deleted when the operating branch contains it; no candidate's unmerged branch is lost |
| MergePhase.RecoverActiveConflict | src/pycastle/iteration/_merge_conflict_recovery.py:120-195 | counts as recovered only when the operating branch contains the issue's branch, whatever the agent did in the sandbox |
| MergePhase.RecoverConflicts | src/pycastle/iteration/_merge_conflict_recovery.py:198-244 | completed followed by pending is the conflict list in order; the completed ones are merged, and exactly these are asked to be closed |
| MergePhase.MergePhase | src/pycastle/iteration/merge.py:238-352 | when it returns, exactly the clean and then the completed conflicts were asked to be closed, in that order, each candidate was tried once, and the branches of the merged ones were handled; however it ends, every issue it closed is merged, and no candidate's unmerged branch is lost; an error or a pending merge has its cause among the answers of git |
| MergePhase.EachCandidateOnce | src/pycastle/iteration/merge.py:87-101 | every completed issue is in exactly one of clean, completed conflict and pending |
| MergePhase.PendingStaysOpen | src/pycastle/iteration/merge.py:212-235 | an issue whose merge is pending is not closed by the phase |
| ImplementPhase.NeverTooMany | src/pycastle/iteration/implement.py:353-415 | in every reachable state at most max_parallel agents run, at most one worktree more is open, and no two agents share a branch |
| ImplementPhase.ReviewComesLast | src/pycastle/iteration/implement.py:233-293 | a reviewer starts only when the implementer step succeeded or is not in the plan |
| ImplementPhase.CompletedWentThrough | src/pycastle/iteration/implement.py:262-293 | a completed issue has gone through its plan, which was made from the marks of that moment; each step has succeeded or was marked done, if and only if it was not rejected while still to be done |
| ImplementPhase.FailedHasCause | src/pycastle/iteration/implement.py:155-293 | a task that fails was rejected, or its planning, its way into or out of a worktree, or an agent of its own failed |
| ImplementPhase.CollidedHasCause | src/pycastle/iteration/implement.py:132-144 | a task that collides found its branch locked by another task that was then in between |
| ImplementPhase.MarksAreCommits | src/pycastle/iteration/implement.py:181-221 | an issue is marked as implemented (reviewed) exactly when it was at the start, or an implementer (reviewer) for it succeeded with commits |
| ImplementPhase.HistoryIsMoves | src/pycastle/iteration/implement.py:155-221 | the roles noted as started and as succeeded are those whose agent was started, and whose agent succeeded, in the run |
| ImplementPhase.SetupFailureCounted | src/pycastle/iteration/implement_issue_plan.py:260-265 | a run in which both worktrees are rejected: completed without any agent |
| ImplementPhase.ReviewedWithoutImplementation | src/pycastle/iteration/implement_issue_plan.py:260-265 | a run in which only the implementer's worktree is rejected, the path having changed between the two looks: completed, reviewed, never implemented |
| ImplementPhase.EverythingIsReturned | src/pycastle/iteration/implement.py:132-144 | when all tasks are finished, all permits and branch locks are back, whatever failed |
| ImplementPhase.RunsAreBounded | src/pycastle/iteration/implement.py:353-415 | no run has more than twenty steps a task |
| ImplementPhase.NobodyIsStuck | src/pycastle/iteration/implement.py:155-221 | the two nested semaphores never block each other: some task can step until all are finished |
| DraftFiling.FileDraftSet | src/pycastle/iteration/improve_filing.py:104-211 | from every state that crashed calls can leave, keeps the filing invariant with one more crash at most; finishes, unless it crashes, exactly when every ticket names earlier drafts only; does nothing once labels are applied |
| DraftFiling.IssuesAreBounded | src/pycastle/iteration/improve_filing.py:104-211 | no more issues are created than drafts and crashes |
| DraftFiling.Start | src/pycastle/iteration/improve_filing.py:127-150 | the invariant holds before anything is filed |
| DraftFiling.FileTicket | src/pycastle/iteration/improve_filing.py:167-203 | a ticket is recorded only with its parent edge and its blocker edges in place, without the state label; `BlockersExactly` says which edges these are |
| DraftFiling.BlockersExactly | src/pycastle/iteration/improve_filing.py:186-191 | a recorded ticket is blocked by exactly the previous candidate's specification, if there is one, and the specification or earlier ticket of each handle that its draft names |
| DraftFiling.BodyNamesBlockers | src/pycastle/iteration/improve_filing.py:61-97 | the blockers section of a recorded ticket refers to the named issues in the draft's order and then to the previous candidate's specification, its parent section to its own specification |
| DraftFiling.ApplyLabels | src/pycastle/iteration/improve_filing.py:205-211 | the state label goes on tickets only, after all are recorded, and labels count as applied only when all have it |
| DraftFiling.CreateKeeps | src/pycastle/iteration/improve_filing.py:180-182 | an issue that was created but not recorded is paid for by a crash |
| DraftFiling.RecordKeeps | src/pycastle/iteration/improve_filing.py:200-203 | recording an issue that is complete takes that crash back |
| DraftFiling.LabelKeeps | src/pycastle/iteration/improve_filing.py:208-209 | labelling a recorded ticket keeps the invariant once all tickets are recorded |
| DraftFiling.RecordedBlockersBefore | src/pycastle/iteration/improve_filing.py:186-189 | every recorded ticket names earlier drafts only |
| DraftFiling.LaterFilingKeeps | src/pycastle/iteration/improve_filing.py:104-211 | what was filed stays filed, edges included, when later calls file other drafts |
| ImproveDriver.NextIsFirstUnrecorded | src/pycastle/iteration/improve.py:544-557 | the recorded outcomes are the canonical sequence scan, spec 0, tickets 0, and so on; the next step is the first one missing, and there is one until all 2n+1 are recorded |
| ImproveDriver.ImprovePhaseDriver.Start | src/pycastle/iteration/improve.py:561-598 | after any crashes the first unrecorded step is offered, as a resumption exactly when it was handed out before |
| ImproveDriver.ImprovePhaseDriver.Next | src/pycastle/iteration/improve.py:600-617 | offers the first unrecorded step as a follow-up |
| ImproveDriver.ImprovePhaseDriver.NextStepFromCursor | src/pycastle/iteration/improve.py:544-557 | finds the first candidate that is not complete and moves the durable cursor there |
| ImproveDriver.ImprovePhaseDriver.RecordOutcome | src/pycastle/iteration/improve.py:619-643 | records the step in hand exactly once, or not at all if it crashes first; what changes on disk is the candidates found, the marker, or the cursor |
| ImproveDriver.ImprovePhase | src/pycastle/iteration/improve.py:746-823 | terminates; a phase that runs to its end has recorded every step in order; without a death every candidate it passed had its drafts read and filed unless they could not be read, and the count it returns is that of the filed ones; it stops early exactly at the cap or behind a candidate after which the safe commit had moved, and restarts exactly when a new specification step has no transcript to follow; candidates behind the cursor are left alone |
| ImproveDriver.FileAndDecide | src/pycastle/iteration/improve_candidate_lifecycle.py:195-231 | runs the modelled filing call on the candidate's own record and the tracker; goes on, abandons, stops at the cap or for the safe commit, or raises, each exactly when the source does |
| ImproveDriver.ImproveSession | src/pycastle/iteration/improve.py:746-823 | over any number of restarts in a session: each death costs at most one candidate its filing; candidates behind the cursor are marked complete, and are fully filed, exactly when their filing call came to its end; others only when their call died after the last label |
| ImproveDriver.FiledWhenCallEnded | src/pycastle/iteration/improve.py:795-819 | a candidate behind the cursor is marked complete if and only if its filing call was made, did not die and its drafts are in order, and then every ticket, edge and label is on the tracker; without a call nothing was filed |
| ImproveDriver.WaitsForPreviousCandidate | src/pycastle/iteration/improve_role_session_store.py:176-184 | each ticket of a candidate is blocked by exactly the specification recorded for the candidate before it, if there is one, and what its draft names |
| ImproveDriver.RecordedIsNotReoffered | src/pycastle/iteration/improve.py:509-542 | no step is handed out after its outcome was recorded, over the whole history of a session |
| ImproveDriver.BehindIsOver | src/pycastle/iteration/improve.py:544-557 | both steps of a candidate behind the cursor are recorded, and neither is handed out afterwards or next |
| ImproveDriver.CrashSkipsFiling | src/pycastle/iteration/improve.py:795-819 | driver calls and a crash after which the next process finds nothing to do and the candidate has no issues |
| ImproveDriver.SwappedDraftsSkipFiling | src/pycastle/iteration/improve_filing.py:158-189 | driver calls without a crash after which one ticket is filed without its state label and nothing is left to do |
| ImproveDriver.TicketsKeeps | src/pycastle/iteration/improve_role_session_store.py:97-99 | writing the cursor behind a candidate keeps log, order and token consistent |
| ImproveDriver.SpecKeeps | src/pycastle/iteration/improve_role_session_store.py:186-197 | the durable marker of a finished specification keeps log, order and token consistent |
| ImproveDriver.ClearKeeps | src/pycastle/iteration/improve_role_session_store.py:101-113 | a crash before the in-flight token is cleared never makes the next step look resumed |
| ImproveDriver.OutcomeKeeps | src/pycastle/iteration/improve.py:619-643 | whichever of its durable writes an outcome got to, the directory is right and nothing behind the cursor has changed |
| SectionedMarkdown.SplitSections | src/pycastle/iteration/sectioned_markdown_body.py:26-43 | the loop computes the parse function |
| SectionedMarkdown.PrintSections | src/pycastle/iteration/sectioned_markdown_body.py:46-56 | the loop computes the print function |
| SectionedMarkdown.ParseShape | src/pycastle/iteration/sectioned_markdown_body.py:26-43 | only the first section can lack a heading, headings are single lines, contents hold no heading line |
| SectionPlaces.ParseKeepsLines | src/pycastle/iteration/sectioned_markdown_body.py:26-43 | the sections hold every line of the body that is not empty, unchanged and in order |
| SectionPlaces.RenderKeepsLines | src/pycastle/iteration/sectioned_markdown_body.py:46-56 | the printed text of headed sections holds each heading and every non-empty line of the stripped contents, in order |
| SectionedMarkdown.ParseOfRender | src/pycastle/iteration/sectioned_markdown_body.py:26-56 | printing and parsing gives the sections back, up to white space around the contents |
| SectionedMarkdown.NormalForm | src/pycastle/iteration/sectioned_markdown_body.py:26-56 | a second parse and print changes nothing |
| NormalForm.NormalFormExactly | src/pycastle/iteration/sectioned_markdown_body.py:26-56 | a second parse and print changes nothing if and only if every text that begins with a heading is that line alone or has one empty line and then text at once |
| NormalForm.ParseOfAnyRender | src/pycastle/iteration/sectioned_markdown_body.py:26-56 | parsing a printed list gives it back, up to white space, with every hidden heading as a section of its own |
| NormalForm.AnyFiledBodyReadsBack | src/pycastle/iteration/improve_filing.py:61-97 | any filed body with a heading beside the parent's reads back as its visible sections with hidden headings as sections of their own: one parent and one blockers section, and one more for each text that hides such a heading |
| SectionedMarkdown.SectionedMarkdownBody.FindAnchorIndex | src/pycastle/iteration/sectioned_markdown_body.py:79-84 | the first section that matches the first anchor that matches any |
| SectionedMarkdown.SectionedMarkdownBody.RemoveHeading | src/pycastle/iteration/sectioned_markdown_body.py:86-87 | exactly the other sections remain, in order |
| SectionedMarkdown.SectionedMarkdownBody.UpsertBefore | src/pycastle/iteration/sectioned_markdown_body.py:92-114 | where the section goes, and that the old one is gone even when the call raises |
| SectionedMarkdown.SectionedMarkdownBody.UpsertAfter | src/pycastle/iteration/sectioned_markdown_body.py:116-138 | the same behind an anchor |
| SectionPlaces.UpsertedStands | src/pycastle/iteration/sectioned_markdown_body.py:92-138 | the inserted section stands directly beside the first section that matches the first anchor found, and without one before the first heading, at the end or nowhere; around it are the other sections in order |
| TicketBody.RenderTicketBody | src/pycastle/iteration/improve_filing.py:61-97 | the text of the edited sections; fails exactly when a blocker is unknown |
| TicketBody.EditKeepsTheRest | src/pycastle/iteration/improve_filing.py:76-96 | all other sections stay, in order and unchanged |
| TicketBody.ExactlyOneOfEach | src/pycastle/iteration/improve_filing.py:76-96 | one parent section and one section of blockers, with the right contents |
| TicketBody.EditedFromCore | src/pycastle/iteration/improve_filing.py:76-96 | places are decided by the other sections alone, and whether there is a heading to go before |
| SectionPlaces.BlockersStand | src/pycastle/iteration/improve_filing.py:84-96 | the blockers stand directly behind the acceptance criteria, failing that directly in front of the first section on the touched files, failing that at the very end |
| SectionPlaces.ParentStands | src/pycastle/iteration/improve_filing.py:76-82 | the parent stands directly in front of the section on what to build, failing that in front of every other heading; the blockers do not come between |
| TicketBody.TextsRefer | src/pycastle/iteration/improve_filing.py:61-75 | the text of blockers refers to exactly the given numbers in order, and without any it is the fixed sentence |
| TicketBody.FiledBodyIsStable | src/pycastle/iteration/improve_filing.py:61-97 | rendering the rendered body again changes nothing if and only if the draft has a heading other than the parent's or no text in front |
| TicketBody.LeadIsLost | src/pycastle/iteration/improve_filing.py:77-82 | otherwise the second round keeps nothing but the two sections |
| TicketBody.FiledBodyReadsBack | src/pycastle/iteration/improve_filing.py:61-97 | a filed body parses to the visible other sections in order, one parent section and one section of blockers |
| PromptResolver.Resolve | src/pycastle/prompts/pipeline.py:337-385 | the cached, guarded resolver yields the plainly expanded text, and fails only if the fragment it began with includes itself, misses a fragment or uses an unknown token somewhere |
| PromptResolver.PlainWhenClean | src/pycastle/prompts/pipeline.py:337-385 | plain expansion succeeds exactly when no reachable fragment is missing or uses an unknown token and no path comes back to a fragment |
| PromptResolver.PlainStep | src/pycastle/prompts/pipeline.py:365-385 | plain expansion satisfies its recursion equation without any bound on depth |
| PromptResolver.TextInOrder | src/pycastle/prompts/pipeline.py:28-37 | rendered text is the texts of its pieces in order; a conditional block's text appears exactly when its argument has the block's value |
| PromptResolver.RenderFailsWhenAsked | src/pycastle/prompts/pipeline.py:28-37 | rendering fails exactly when a placeholder outside of dropped blocks has no argument |
| PromptResolver.TokensOccur | src/pycastle/prompts/pipeline.py:337-385 | the tokens of a text are exactly its placeholders and the names its conditional blocks ask for |
| PromptResolver.RenderTemplate | src/pycastle/prompts/pipeline.py:450-471 | equals the template with each shared token plainly expanded, for every visiting order, although cache and arguments grow on the way |
| PromptResolver.PlainTextAcross | src/pycastle/prompts/pipeline.py:462-470 | arguments given for shared tokens never matter |
| PromptResolver.Preprocess | src/pycastle/prompts/pipeline.py:40-47 | splicing from the last match to the first equals replacing every match in place by its output without the newlines at its end |
| WakeTime.ComputeWakeTime | src/pycastle/services/_wake_time.py:25-41 | the loop computes the wake time |
| WakeTime.WakeIsLeast | src/pycastle/services/_wake_time.py:33-41 | without a reset time: the least instant two minutes past an hour that is late enough |
| WakeTime.MarkedWakeIsTheRunners | src/pycastle/agents/runner.py:72-84 | what the pool stores after the runner's subtraction and its own addition is the runner's wake time, in every case |
| WakeTime.WakeIsLater | src/pycastle/services/_wake_time.py:25-41 | the wake time is in the future unless a known reset lies two minutes back or more |
| CredentialPools.CredentialPool.PickForModel | src/pycastle/services/credential_pool.py:90-97 | the first usable account, or none exactly when none is usable |
| CredentialPools.CredentialPool.EarliestWakeTime | src/pycastle/services/credential_pool.py:66-75 | the least finite time, or the error exactly when there is none |
| CredentialPools.CredentialPool.MarkExhausted | src/pycastle/services/credential_pool.py:45-59 | the first account with the token is exhausted until the wake time |
| CredentialPools.MarkingTakesOneAccount | src/pycastle/services/credential_pool.py:56-59 | exactly one account changes |
| CredentialPools.CredentialPool.MarkModelRestricted | src/pycastle/services/credential_pool.py:83-87 | the account with the token may not use the model, and with one account for each token is not usable for it at any time |
| CredentialPools.UsableAfterMarks | src/pycastle/services/credential_pool.py:45-105 | after any sequence of markings an account is usable for a model exactly when the last exhaustion marked for it, or else its first one, is over and the model was never forbidden to it |
| CredentialPools.PoolAvailabilityHelper.PickToken | src/pycastle/services/_pool_availability.py:56-70 | a usable token, or the time when there is one, later than now, or the permanent error exactly when all accounts are gone for good |
| StageChain.SelectChain | src/pycastle/stage_priority_chain.py:184-216 | whether it reuses a node or rebuilds the chain, the entries are those of the list specification |
| StageChain.BuildChain | src/pycastle/stage_priority_chain.py:163-172 | the chain built has exactly the entries of the nodes |
| StageChain.ReuseIsRebuild | src/pycastle/stage_priority_chain.py:195-206 | handing out a node as it is equals rebuilding, when nothing unconfigured follows |
| StageChain.HeadIsUpIfAny | src/pycastle/stage_priority_chain.py:123-149 | the head of the choice is configured and available exactly when the chain has such an entry |
| StageChain.ChosenByPlace | src/pycastle/stage_priority_chain.py:184-216 | what is chosen are all configured entries in the chain's order from the first available one on, all of them when none is available, the whole chain when none is configured |
| ServiceRegistry.Resolve | src/pycastle/services/service_registry.py:66-68 | the configured entries from the first available one on; all of them if none is; the override if none is configured |
| ServiceRegistry.HasAvailableFor | src/pycastle/services/service_registry.py:73-76 | true exactly when a configured candidate is available |
| ServiceRegistry.AvailableWhenHeadIs | src/pycastle/services/service_registry.py:73-76 | that is, exactly when the head of what is dispatched is available |
| ServiceRegistry.NextWakeTimeFor | src/pycastle/services/service_registry.py:87-99 | the least wake time of the unavailable candidates |
| ServiceRegistry.WakeIsExact | src/pycastle/services/service_registry.py:87-99 | without restricted models the wake time is the first moment at which a candidate is available |
| ServiceRegistry.WakeIsNotTooLate | src/pycastle/services/service_registry.py:87-99 | nothing becomes available before the wake time |
| ServiceRegistry.WakeIsNotTooEarly | src/pycastle/services/credential_pool.py:66-75 | there is a wake time in the future that finds something available if and only if the earliest of all exhaustion times of the candidates' accounts frees an unrestricted one |
| ServiceRegistry.NoWakeIsPermanent | src/pycastle/services/service_registry.py:18-22 | no wake time means that every account of every candidate is exhausted for good |
| ServiceRegistry.RestrictionMakesWakeEarly | src/pycastle/services/credential_pool.py:66-75 | accounts for which the wake time lies in the past and nothing is available then |
| RetryParse.Retry | src/pycastle/agents/output_protocol.py:149-178 | the shortest candidate that parses, else the error of the longest; candidates are met in the order of `Visits` |
| RetryParse.VisitsAreTheOpens | src/pycastle/agents/output_protocol.py:126-140 | exactly the opening tags in front of the last closing tag are visited, from right to left |
| RetryParse.PayloadIsRecovered | src/pycastle/agents/output_protocol.py:156-163 | a payload in tags is recovered from any prose around it, decoys and literal tags included |
| RetryParse.LastTagBlock | src/pycastle/agents/output_protocol.py:143-146 | the text after the last opening tag in front of the last closing tag |
| InvocationLog.LogicalInvocationLog.OpenWorkInvocation | src/pycastle/infrastructure/agent_invocation_log.py:146-175 | the file gains exactly a separator and a header line |
| InvocationLog.LogicalInvocationLog.AppendProviderChunk | src/pycastle/infrastructure/agent_invocation_log.py:33-35 | the chunk goes to the end, whatever was rewritten meanwhile |
| InvocationLog.LogicalInvocationLog.AppendWorkInvocation | src/pycastle/infrastructure/agent_invocation_log.py:177-194 | a whole invocation at the end, which does not become the latest one |
| InvocationLog.LogicalInvocationLog.RecordProviderSessionId | src/pycastle/infrastructure/agent_invocation_log.py:37-54 | of the whole file only the session id of the latest invocation's header changes |
| InvocationLog.HeaderReplaced | src/pycastle/infrastructure/agent_invocation_log.py:42-54 | cutting at the header's start and the next newline takes out the old header and nothing else, for any length |
| InvocationLog.LaterHeadersMove | src/pycastle/infrastructure/agent_invocation_log.py:37-54 | rewriting an earlier header moves later ones by the difference in length, so their kept offsets stay right only for equal lengths |
| InvocationLog.BlankLineBefore | src/pycastle/infrastructure/agent_invocation_log.py:196-201 | a blank line comes before every header but the first, also after rewriting |
| InvocationLog.OneBlankLineIsAdded | src/pycastle/infrastructure/agent_invocation_log.py:196-201 | opening an invocation adds to the lines of the file exactly one empty line and the header, and to an empty file the header alone |
| IssueLabels.ReadyMeans | src/pycastle/issue_readiness.py:254-324 | ready means not exempt, a long enough body and exactly one slice label |
| LabelLaws.KindMeans | src/pycastle/issue_readiness.py:254-324 | each of the six readiness kinds, exactly, by the HITL label, the length of the stripped body and whether there is no, one or more than one slice label |
| LabelLaws.SliceModeMeans | src/pycastle/issue_readiness.py:254-265 | the mode is that of the one slice label |
| IssueLabels.MarkerLabelSyncActions | src/pycastle/iteration/planning_issue_intake.py:191-223 | the actions are exactly those wanted by a rule for an issue |
| IssueLabels.ClassifyPlanningIssueSet | src/pycastle/iteration/planning_issue_intake.py:226-302 | the ready and malformed issues in order, the readiness each ready one was given, and the wanted actions |
| IssueLabels.ReconciliationConverges | src/pycastle/iteration/planning_issue_intake.py:191-302 | after the actions are applied, preparing again asks for nothing |
| LabelLaws.LabelsAfterRound | src/pycastle/iteration/planning_issue_intake.py:191-302 | after the actions of a round an exempt issue has the labels it had; any other has the body marker exactly when its stripped body is too short, the slice marker exactly when it has not one slice label, and its other labels |
| LabelLaws.ReadyInOrder | src/pycastle/iteration/planning_issue_intake.py:241-253 | the ready issues are those classified as ready, in the order of the round |
| LabelLaws.MalformedInOrder | src/pycastle/iteration/planning_issue_intake.py:255-264 | the issues listed as malformed are those neither ready nor exempt that lack what the marker is about, in order |
| LabelLaws.CarriedIsKept | src/pycastle/iteration/planning_issue_intake.py:305-323 | an issue that is still ready keeps the readiness it came with |
| IssueLabels.ApplySliceClassifierVerdicts | src/pycastle/iteration/planning_issue_intake.py:384-474 | the prepared set after the verdicts, for issues with different numbers |
| IssueLabels.ReadyGrowsByConcrete | src/pycastle/iteration/planning_issue_intake.py:456-466 | the ready issues grow by exactly the malformed ones with a concrete verdict, relabelled |
| IssueLabels.PromotedIsReady | src/pycastle/iteration/planning_issue_intake.py:364-377 | every promoted issue is ready, in the verdict's mode, with exactly one slice label |
| IssueLabels.PromotedOnTracker | src/pycastle/iteration/planning_issue_intake.py:405-436 | applying all actions in order leaves a promoted issue with exactly one slice label on the tracker |
| IssueLabels.NextRoundAfterVerdicts | src/pycastle/iteration/planning_issue_intake.py:384-474 | after the verdicts' actions, preparing again asks for exactly the removal of the slice marker from promoted issues that carried it |

## Left out

- Worktrees.Git.CarriesOwnWork: answers correctly; the original answers no when git fails.
- WorktreeLifecycle.AgentAtWork: an agent commits on its worktree's branch and changes files; it does not switch branches or rewrite history.
- WorktreeLifecycle.CreateIssueWorktree: a registered worktree that is on disk is taken as it is, whatever branch it is on, as the code does; the branch is promised only for new worktrees.
- SectionedMarkdown.NormalForm: gives the sections too, for bodies in which no section's text begins, after white space, with `## `; NormalFormExactly covers the others.
- TicketBody.FiledBodyIsStable: for bodies in which no section's text hides a heading; a hidden heading can itself be an anchor or one of the two sections in the second round.
- TicketBody.FiledBodyReadsBack: for such bodies, with the sections' contents; AnyFiledBodyReadsBack covers the others.
- IssueLabels.ApplySliceClassifierVerdicts: issues have different numbers, as on GitHub; the original keeps dictionaries by number.
- ImplementPhase.NobodyIsStuck: agents are assumed to end, and semaphores to hand a free permit to some waiting task.
- CloseCascade.LastChildClosesParent: assumes that no issue is reopened, and that an issue closed before the batch and dropped from the memory of recently closed issues is listed as closed.
- InvocationLog.LogicalInvocationLog.RecordProviderSessionId: the latest invocation's handle only; a rewrite through an older handle can make later offsets wrong (LaterHeadersMove).
- InvocationLog.LogicalInvocationLog.AppendProviderChunk: a chunk written through an invocation after a later one was appended belongs to the later one, as in the file.
- SectionPlaces.RenderKeepsLines: for sections that all have headings; a text in front of the first heading is covered by ParseOfRender.
- CredentialPools.UsableAfterMarks: for accounts with different tokens; a marking goes to the first account with the token, so a second one with the same token is never marked.
- LabelLaws.LabelsAfterRound: issues have different numbers, and the configured labels are different.
- ServiceRegistry.WakeIsExact: a time that a service keeps of its own is assumed to lie before the constant that stands for a permanent exhaustion.
- The implement phase, the run lock and the close cascade are state machines over values: several participants change one state, which an object with methods would hide. What this does not capture is the order in which semaphores and locks serve waiting participants.
- The merge phase closes issues one after the other; the parallel calls are what the close cascade models.
- The registry and the stage chain read snapshots of the availability trackers; two services that share one credential pool are not modelled.
- Session directories, stores and the issue tracker take each write as atomic; other people's changes to the tracker during an improve session are not modelled.
- Bodies of markdown, JSON and YAML parsers, regular expressions: parameters or lists of pieces.
- Pushing, pulling, retries, pagination, Docker, prompts, status rows, bug reports, configuration: input and output or wiring.
- Waiting loops without a deadline end as a failure after arbitrarily many rounds.
- Daylight saving: instants are those of a clock whose hours are all of the same length.
- The wind-down of outdated improve sessions and the repair of draft sets: they reuse the filing call that is modelled. What is said of candidates behind the cursor holds within a session; its wind-down closes or files again what has a specification by then.
