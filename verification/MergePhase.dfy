/** The merge phase: the batch of clean merges, conflict recovery, and which issues are closed when. */
module MergePhase {
  import opened Outcomes
  import opened Commits
  import opened Worktrees
  import opened WorktreeLifecycle
  import opened Text

  const BatchSandbox := Sandbox("merge-batch-sandbox")
  const BatchPath := "merge-batch-sandbox"

  function IssuePath(n: nat): Path { "issue-" + Decimal(n) }

  function RecoveryPath(n: nat): Path { "merge-sandbox-issue-" + Decimal(n) }

  function IssueBranches(issues: seq<nat>): set<Branch>
  {
    set n | n in issues :: Issue(n)
  }

  // ---------- the tips at the start ----------

  /** Each branch is where it was when the phase began, or gone because the operating branch contains it. */
  predicate Held(r: Repo, tips: map<nat, nat>)
  {
    ValidRepo(r) && forall n :: n in tips ==> HeldOne(r, n, tips[n])
  }

  predicate HeldOne(r: Repo, n: nat, tip: nat)
    requires ValidRepo(r)
  {
    tip < |r.graph| && (On(r, tip) || (Issue(n) in r.refs && r.refs[Issue(n)] == tip))
  }

  /** The operating branch contains what the issue's branch held at the start. */
  predicate IsMerged(r: Repo, tips: map<nat, nat>, n: nat)
    requires ValidRepo(r)
  {
    n in tips && tips[n] < |r.graph| && On(r, tips[n])
  }

  /** A branch that is there is one of those there at the start. */
  predicate NoneNew(r: Repo, issues: seq<nat>, tips: map<nat, nat>)
  {
    forall n :: n in issues && Issue(n) in r.refs ==> n in tips && r.refs[Issue(n)] == tips[n]
  }

  lemma HeldStays(r: Repo, r': Repo, s: Branch, issues: seq<nat>, tips: map<nat, nat>)
    requires Keeps(r, r') && Held(r, tips) && NoneNew(r, issues, tips) && !s.Issue?
    requires forall n :: n in tips ==> n in issues
    requires SameOthers(r, r', s, IssueBranches(issues))
    ensures Held(r', tips) && NoneNew(r', issues, tips)
    ensures forall n :: IsMerged(r, tips, n) ==> IsMerged(r', tips, n)
  {
    forall n | n in issues
      ensures SameRef(r, r', Issue(n))
    {
      assert Issue(n) in IssueBranches(issues);
    }
    forall n | n in tips
      ensures HeldOne(r', n, tips[n]) && (IsMerged(r, tips, n) ==> IsMerged(r', tips, n))
    {
      assert HeldOne(r, n, tips[n]);
      if On(r, tips[n]) {
        OnStays(r, r', tips[n]);
      }
    }
  }

  // ---------- closing ----------

  class Tracker {
    var closed: seq<nat>
    ghost var requests: seq<nat>

    /** Only ever called for an issue whose branch the operating branch contains. The call can fail; `requests` has all. */
    method CloseIssue(git: Git, n: nat, ghost tips: map<nat, nat>)
      requires git.Valid() && IsMerged(git.repo, tips, n)
      modifies this
      ensures closed == old(closed) || closed == old(closed) + [n]
      ensures requests == old(requests) + [n]
    {
      requests := requests + [n];
      var fails: bool := *;
      if !fails {
        closed := closed + [n];
      }
    }
  }

  /** What holds throughout: branches are held, and every issue closed so far is merged. */
  predicate InPhase(r: Repo, closed: seq<nat>, issues: seq<nat>, tips: map<nat, nat>)
  {
    && Held(r, tips) && NoneNew(r, issues, tips)
    && (forall n :: n in tips ==> n in issues)
    && forall n :: n in closed ==> IsMerged(r, tips, n)
  }

  ghost predicate Phase(git: Git, tracker: Tracker, h0: seq<Repo>, c0: seq<nat>, issues: seq<nat>, tips: map<nat, nat>)
    reads git, tracker
  {
    git.Valid() && h0 <= git.history && c0 <= tracker.closed && InPhase(git.repo, tracker.closed[|c0|..], issues, tips)
  }

  lemma InPhaseStays(r: Repo, r': Repo, s: Branch, closed: seq<nat>, issues: seq<nat>, tips: map<nat, nat>)
    requires Keeps(r, r') && InPhase(r, closed, issues, tips) && !s.Issue?
    requires SameOthers(r, r', s, IssueBranches(issues))
    ensures InPhase(r', closed, issues, tips)
  {
    HeldStays(r, r', s, issues, tips);
  }

  // ---------- splitting the candidates ----------

  /** The candidates that went one way. */
  function Pick(all: seq<nat>, flags: seq<bool>, want: bool): seq<nat>
    requires |flags| == |all|
  {
    if all == [] then []
    else Pick(all[..|all| - 1], flags[..|all| - 1], want) + if flags[|all| - 1] == want then [all[|all| - 1]] else []
  }

  lemma PickedLast(all: seq<nat>, flags: seq<bool>, want: bool)
    requires |flags| == |all| && all != []
    ensures multiset(Pick(all, flags, want)) ==
            multiset(Pick(all[..|all| - 1], flags[..|all| - 1], want))
            + if flags[|all| - 1] == want then multiset([all[|all| - 1]]) else multiset{}
  {
  }

  lemma {:induction false} PickSplits(all: seq<nat>, flags: seq<bool>)
    requires |flags| == |all|
    ensures multiset(Pick(all, flags, true)) + multiset(Pick(all, flags, false)) == multiset(all)
  {
    if all != [] {
      var init, last, flag := all[..|all| - 1], [all[|all| - 1]], flags[|all| - 1];
      PickSplits(init, flags[..|all| - 1]);
      PickedLast(all, flags, true);
      PickedLast(all, flags, false);
      assert all == init + last;
      assert multiset(all) == multiset(init) + multiset(last);
    }
  }

  lemma PickOne(all: seq<nat>, flags: seq<bool>, i: nat, flag: bool, want: bool)
    requires |flags| == i < |all|
    ensures Pick(all[..i + 1], flags + [flag], want) == Pick(all[..i], flags, want) + if flag == want then [all[i]] else []
  {
    assert all[..i + 1][..i] == all[..i] && (flags + [flag])[..i] == flags;
  }

  // ---------- single steps ----------

  predicate At(r: Repo, path: Path, s: Branch)
  {
    s in r.refs && path in r.trees && r.trees[path].branch == Some(s)
  }

  /** The branch s contains the commit. */
  predicate Has(r: Repo, s: Branch, c: nat)
  {
    ValidRepo(r) && s in r.refs && c < |r.graph| && c in Reach(r.graph, r.refs[s])
  }

  lemma HasStays(r: Repo, r': Repo, s: Branch, c: nat)
    requires Keeps(r, r') && Has(r, s, c) && s in r'.refs && r.refs[s] in Reach(r'.graph, r'.refs[s])
    ensures Has(r', s, c)
  {
    ReachAcross(r.graph, r'.graph, c, r.refs[s], r'.refs[s]);
  }

  /** Others at work between two commands of the phase. */
  method Pause(git: Git, tracker: Tracker, path: Path, s: Branch, issues: seq<nat>,
               ghost h0: seq<Repo>, ghost c0: seq<nat>, ghost tips: map<nat, nat>)
    requires Phase(git, tracker, h0, c0, issues, tips) && s.Sandbox?
    modifies git`repo, git`history
    ensures Phase(git, tracker, h0, c0, issues, tips)
    ensures Keeps(old(git.repo), git.repo) && SameRef(old(git.repo), git.repo, s)
    ensures SameTree(old(git.repo), git.repo, path)
  {
    ghost var r := git.repo;
    git.Others(IssueBranches(issues) + {s}, {path});
    InPhaseStays(r, git.repo, s, tracker.closed[|c0|..], issues, tips);
  }

  method MergeOne(git: Git, tracker: Tracker, path: Path, s: Branch, n: nat, keep: bool, issues: seq<nat>,
                  ghost h0: seq<Repo>, ghost c0: seq<nat>, ghost tips: map<nat, nat>)
    returns (result: Merging)
    requires Phase(git, tracker, h0, c0, issues, tips) && s.Sandbox? && At(git.repo, path, s) && n in issues
    modifies git`repo, git`history, git`tries
    ensures Phase(git, tracker, h0, c0, issues, tips) && At(git.repo, path, s)
    ensures forall c: nat :: old(Has(git.repo, s, c)) ==> Has(git.repo, s, c)
    ensures result == Merged ==> n in tips && Has(git.repo, s, tips[n])
    ensures git.tries == old(git.tries) + [Try(s, Issue(n), result)]
  {
    ghost var r := git.repo;
    Pause(git, tracker, path, s, issues, h0, c0, tips);
    ghost var r1 := git.repo;
    result := git.Merge(path, s, Issue(n), keep);
    InPhaseStays(r1, git.repo, s, tracker.closed[|c0|..], issues, tips);
    forall c: nat | Has(r, s, c)
      ensures Has(git.repo, s, c)
    {
      HasStays(r, r1, s, c);
      HasStays(r1, git.repo, s, c);
    }
  }

  /** pycastle's `_advance_branch_ref_through_gate`: tries again while the operating branch is checked out.
      A wait that does not end is a failure. */
  method AdvanceThroughGate(git: Git, tracker: Tracker, path: Path, s: Branch, issues: seq<nat>,
                            ghost h0: seq<Repo>, ghost c0: seq<nat>, ghost tips: map<nat, nat>)
    returns (ok: bool)
    requires Phase(git, tracker, h0, c0, issues, tips) && s.Sandbox? && At(git.repo, path, s)
    modifies git`repo, git`history, git`log
    ensures Phase(git, tracker, h0, c0, issues, tips) && At(git.repo, path, s)
    ensures forall c: nat :: old(Has(git.repo, s, c)) ==> Has(git.repo, s, c)
    ensures ok ==> forall c: nat :: old(Has(git.repo, s, c)) ==> c < |git.repo.graph| && On(git.repo, c)
    ensures old(git.log) <= git.log && (!ok ==> Troubled(old(git.log), git.log))
  {
    ghost var r := git.repo;
    var rounds: nat :| true;
    KeepsSelf(r);
    for i := 0 to rounds + 1
      invariant old(git.log) <= git.log && (i > 0 ==> Troubled(old(git.log), git.log))
      invariant Phase(git, tracker, h0, c0, issues, tips) && Keeps(r, git.repo)
      invariant SameRef(r, git.repo, s) && SameTree(r, git.repo, path)
    {
      ghost var r1, l := git.repo, git.log;
      var result := TryAdvance(git, tracker, path, s, issues, h0, c0, tips);
      KeepsTrans(r, r1, git.repo);
      Overall(old(git.log), l, git.log, git.log);
      if result == Advanced || result == NotForward {
        AllHave(r, git.repo, s);
        return result == Advanced;
      }
    }
    AllHave(r, git.repo, s);
    return false;
  }

  method TryAdvance(git: Git, tracker: Tracker, path: Path, s: Branch, issues: seq<nat>,
                    ghost h0: seq<Repo>, ghost c0: seq<nat>, ghost tips: map<nat, nat>)
    returns (result: Advancing)
    requires Phase(git, tracker, h0, c0, issues, tips) && s.Sandbox? && s in git.repo.refs
    modifies git`repo, git`history, git`log
    ensures Phase(git, tracker, h0, c0, issues, tips) && Keeps(old(git.repo), git.repo)
    ensures SameRef(old(git.repo), git.repo, s) && SameTree(old(git.repo), git.repo, path)
    ensures result == Advanced ==> git.repo.refs[Operating] == git.repo.refs[s]
    ensures old(git.log) <= git.log && (result != Advanced ==> Troubled(old(git.log), git.log))
  {
    ghost var r := git.repo;
    Pause(git, tracker, path, s, issues, h0, c0, tips);
    ghost var r1 := git.repo;
    result := git.Advance(s);
    InPhaseStays(r1, git.repo, Operating, tracker.closed[|c0|..], issues, tips);
    KeepsTrans(r, r1, git.repo);
    if result != Advanced {
      TroubleAt(old(git.log), Moved(s, result), git.log);
    }
  }

  lemma AllHave(r: Repo, r': Repo, s: Branch)
    requires Keeps(r, r') && s in r.refs && SameRef(r, r', s)
    ensures forall c: nat :: Has(r, s, c) ==> Has(r', s, c)
    ensures r'.refs[Operating] == r'.refs[s] ==> forall c: nat :: Has(r, s, c) ==> c < |r'.graph| && On(r', c)
  {
    forall c: nat | Has(r, s, c)
      ensures Has(r', s, c)
    {
      HasStays(r, r', s, c);
    }
  }

  // ---------- the batch ----------

  ghost predicate AllIn(r: Repo, s: Branch, clean: seq<nat>, tips: map<nat, nat>)
  {
    forall n :: n in clean ==> n in tips && Has(r, s, tips[n])
  }

  /** pycastle's `_classify_merge_candidates`. */
  method ClassifyCandidates(git: Git, tracker: Tracker, issues: seq<nat>, safeSha: nat,
                            ghost h0: seq<Repo>, ghost c0: seq<nat>, ghost tips: map<nat, nat>)
    returns (ok: bool, clean: seq<nat>, conflicts: seq<nat>, ghost flags: seq<bool>)
    requires Phase(git, tracker, h0, c0, issues, tips) && safeSha < |git.repo.graph|
    modifies git
    ensures Phase(git, tracker, h0, c0, issues, tips)
    ensures ok ==> |flags| == |issues| && clean == Pick(issues, flags, true) && conflicts == Pick(issues, flags, false)
    ensures ok ==> AllMerged(git.repo, clean, tips)
    ensures ok ==> EachTried(old(git.tries), git.tries, issues, flags)
    ensures old(git.log) <= git.log && old(git.tries) <= git.tries
    ensures !ok ==> Troubled(old(git.log), git.log) || FailedTry(old(git.tries), git.tries)
  {
    clean, conflicts, flags := [], [], [];
    ok := EnterSandbox(git, tracker, ReplaceableMergeSandbox, BatchPath, BatchSandbox, safeSha, issues, h0, c0, tips);
    if !ok {
      return;
    }
    ok, clean, conflicts, flags := MergeBatch(git, tracker, issues, h0, c0, tips);
    ghost var l := git.log;
    if ok && clean != [] {
      ok := AdvanceThroughGate(git, tracker, BatchPath, BatchSandbox, issues, h0, c0, tips);
    }
    assert ok ==> AllMerged(git.repo, clean, tips);
    ghost var r, l1 := git.repo, git.log;
    var left := LeaveSandbox(git, tracker, ReplaceableMergeSandbox, BatchPath, BatchSandbox, ok, issues, h0, c0, tips);
    if ok {
      MergedStay(r, git.repo, clean, tips);
    }
    Overall(old(git.log), l, l1, git.log);
    ok := ok && left;
  }

  /** Trouble on the way is trouble on the whole. */
  lemma Overall(a: seq<Event>, b: seq<Event>, c: seq<Event>, d: seq<Event>)
    requires a <= b <= c <= d
    ensures a <= d && (Troubled(b, c) || Troubled(c, d) || Troubled(b, d) ==> Troubled(a, d))
  {
    if Troubled(b, c) {
      TroubledIn(a, b, c, d);
    }
    if Troubled(c, d) {
      TroubledIn(a, c, d, d);
    }
    if Troubled(b, d) {
      TroubledIn(a, b, d, d);
    }
  }

  /** Every candidate was tried once, in order, and is clean or in conflict as its try said. */
  predicate EachTried(before: seq<Try>, after: seq<Try>, issues: seq<nat>, flags: seq<bool>)
  {
    && |flags| == |issues| && |after| == |before| + |issues| && before <= after
    && forall i :: 0 <= i < |issues| ==> after[|before| + i] == Try(BatchSandbox, Issue(issues[i]), if flags[i] then Merged else Conflict)
  }

  predicate AllMerged(r: Repo, issues: seq<nat>, tips: map<nat, nat>)
  {
    ValidRepo(r) && forall n :: n in issues ==> IsMerged(r, tips, n)
  }

  lemma MergedStay(r: Repo, r': Repo, issues: seq<nat>, tips: map<nat, nat>)
    requires Keeps(r, r') && AllMerged(r, issues, tips)
    ensures AllMerged(r', issues, tips)
  {
    forall n | n in issues
      ensures IsMerged(r', tips, n)
    {
      assert IsMerged(r, tips, n);
      OnStays(r, r', tips[n]);
    }
  }

  lemma TriedNext(before: seq<Try>, after: seq<Try>, issues: seq<nat>, flags: seq<bool>, i: nat, result: Merging)
    requires i < |issues| && result != Failed && |after| == |before| + i + 1
    requires EachTried(before, after[..|before| + i], issues[..i], flags)
    requires after[|before| + i] == Try(BatchSandbox, Issue(issues[i]), result)
    ensures EachTried(before, after, issues[..i + 1], flags + [result == Merged])
  {
    var tries := after[..|before| + i];
    forall j | 0 <= j <= i
      ensures after[|before| + j] == Try(BatchSandbox, Issue(issues[j]), if (flags + [result == Merged])[j] then Merged else Conflict)
    {
      assert j < i ==> after[|before| + j] == tries[|before| + j] && issues[..i][j] == issues[j];
    }
  }

  /** One try per candidate, in order. */
  method MergeBatch(git: Git, tracker: Tracker, issues: seq<nat>, ghost h0: seq<Repo>, ghost c0: seq<nat>, ghost tips: map<nat, nat>)
    returns (ok: bool, clean: seq<nat>, conflicts: seq<nat>, ghost flags: seq<bool>)
    requires Phase(git, tracker, h0, c0, issues, tips) && At(git.repo, BatchPath, BatchSandbox)
    modifies git`repo, git`history, git`tries
    ensures Phase(git, tracker, h0, c0, issues, tips) && At(git.repo, BatchPath, BatchSandbox)
    ensures ok ==> |flags| == |issues| && clean == Pick(issues, flags, true) && conflicts == Pick(issues, flags, false)
    ensures ok ==> AllIn(git.repo, BatchSandbox, clean, tips)
    ensures ok ==> EachTried(old(git.tries), git.tries, issues, flags)
    ensures old(git.tries) <= git.tries && (!ok ==> FailedTry(old(git.tries), git.tries))
  {
    clean, conflicts, flags := [], [], [];
    for i := 0 to |issues|
      invariant EachTried(old(git.tries), git.tries, issues[..i], flags)
      invariant Phase(git, tracker, h0, c0, issues, tips) && At(git.repo, BatchPath, BatchSandbox)
      invariant |flags| == i && clean == Pick(issues[..i], flags, true) && conflicts == Pick(issues[..i], flags, false)
      invariant AllIn(git.repo, BatchSandbox, clean, tips)
    {
      var result := MergeOne(git, tracker, BatchPath, BatchSandbox, issues[i], false, issues, h0, c0, tips);
      if result == Failed {
        assert git.tries[|git.tries| - 1].result == Failed;
        return false, clean, conflicts, flags;
      }
      TriedNext(old(git.tries), git.tries, issues, flags, i, result);
      PickOne(issues, flags, i, result == Merged, true);
      PickOne(issues, flags, i, result == Merged, false);
      flags := flags + [result == Merged];
      if result == Merged {
        clean := clean + [issues[i]];
      } else {
        conflicts := conflicts + [issues[i]];
      }
    }
    assert issues[..|issues|] == issues;
    ok := true;
  }

  method EnterSandbox(git: Git, tracker: Tracker, lifecycle: Lifecycle, path: Path, s: Branch, sha: nat, issues: seq<nat>,
                      ghost h0: seq<Repo>, ghost c0: seq<nat>, ghost tips: map<nat, nat>)
    returns (ok: bool)
    requires Phase(git, tracker, h0, c0, issues, tips) && s.Sandbox? && Disposable(lifecycle) && sha < |git.repo.graph|
    modifies git`repo, git`history, git`log
    ensures Phase(git, tracker, h0, c0, issues, tips)
    ensures ok ==> At(git.repo, path, s)
    ensures old(git.log) <= git.log && (!ok ==> Troubled(old(git.log), git.log))
  {
    ghost var r := git.repo;
    CarefulSelf(r, s, IssueBranches(issues));
    ok := Enter(git, IssueBranches(issues), git.history, lifecycle, path, s, Some(sha));
    InPhaseStays(r, git.repo, s, tracker.closed[|c0|..], issues, tips);
  }

  /** A run that failed may have its worktree kept. The way out fails when git does not delete the branch. */
  method LeaveSandbox(git: Git, tracker: Tracker, lifecycle: Lifecycle, path: Path, s: Branch, succeeded: bool, issues: seq<nat>,
                      ghost h0: seq<Repo>, ghost c0: seq<nat>, ghost tips: map<nat, nat>)
    returns (ok: bool)
    requires Phase(git, tracker, h0, c0, issues, tips) && s.Sandbox? && Disposable(lifecycle)
    modifies git`repo, git`history, git`log
    ensures Phase(git, tracker, h0, c0, issues, tips) && Keeps(old(git.repo), git.repo)
    ensures old(git.log) <= git.log && (!ok ==> Troubled(old(git.log), git.log))
  {
    ghost var r, l := git.repo, git.log;
    CarefulSelf(r, s, IssueBranches(issues));
    var worthy: bool := *;
    ok := TeardownWorktreeBranch(git, IssueBranches(issues), git.history, lifecycle, path, s, worthy && !succeeded);
    InPhaseStays(r, git.repo, s, tracker.closed[|c0|..], issues, tips);
    if !ok {
      assert Trouble(git.log[|git.log| - 1]);
    }
  }

  // ---------- after a merge ----------

  lemma TornDownStays(r: Repo, r': Repo, n: nat, closed: seq<nat>, issues: seq<nat>, tips: map<nat, nat>)
    requires Keeps(r, r') && InPhase(r, closed, issues, tips) && SameOthers(r, r', Issue(n), IssueBranches(issues))
    requires SameRef(r, r', Issue(n)) || (Issue(n) in r.refs && Issue(n) !in r'.refs && On(r', r.refs[Issue(n)]))
    ensures InPhase(r', closed, issues, tips)
  {
    forall m | m in issues && m != n
      ensures SameRef(r, r', Issue(m))
    {
      assert Issue(m) in IssueBranches(issues);
    }
    forall m | m in tips
      ensures HeldOne(r', m, tips[m]) && (IsMerged(r, tips, m) ==> IsMerged(r', tips, m))
    {
      assert HeldOne(r, m, tips[m]);
      if On(r, tips[m]) {
        OnStays(r, r', tips[m]);
      }
    }
  }

  method TearDown(git: Git, tracker: Tracker, n: nat, issues: seq<nat>, ghost h0: seq<Repo>, ghost c0: seq<nat>, ghost tips: map<nat, nat>)
    requires Phase(git, tracker, h0, c0, issues, tips) && n in issues
    modifies git`repo, git`history, git`log
    ensures Phase(git, tracker, h0, c0, issues, tips) && Keeps(old(git.repo), git.repo)
    ensures BranchHandled(old(git.log), git.log, n)
  {
    ghost var r := git.repo;
    assert Issue(n) in IssueBranches(issues);
    var deleted := TeardownMergedBranch(git, IssueBranches(issues), IssuePath(n), Issue(n));
    TornDownStays(r, git.repo, n, tracker.closed[|c0|..], issues, tips);
    HandledHere(old(git.log), git.log, n, Contained(r, Issue(n)), deleted);
  }

  lemma HandledHere(before: seq<Event>, after: seq<Event>, n: nat, yes: bool, deleted: bool)
    requires after == before + if yes then [Asked(Issue(n), Operating, true), Removed(IssuePath(n)), Deleted(Issue(n), deleted)]
                               else [Asked(Issue(n), Operating, false)]
    ensures BranchHandled(before, after, n)
  {
    assert HandledAt(after, |before|, n, yes);
  }

  /** It was asked whether the issue's branch is merged, and if so its worktree and then the branch were disposed of. */
  ghost predicate BranchHandled(before: seq<Event>, after: seq<Event>, n: nat)
  {
    before <= after && exists i, yes :: |before| <= i < |after| && HandledAt(after, i, n, yes)
  }

  ghost predicate HandledAt(log: seq<Event>, i: nat, n: nat, yes: bool)
  {
    && i < |log| && log[i] == Asked(Issue(n), Operating, yes)
    && (yes ==> i + 2 < |log| && log[i + 1] == Removed(IssuePath(n)) && log[i + 2].Deleted? && log[i + 2].b == Issue(n))
  }

  lemma HandledStill(a: seq<Event>, b: seq<Event>, c: seq<Event>, d: seq<Event>, n: nat)
    requires a <= b && BranchHandled(b, c, n) && c <= d
    ensures BranchHandled(a, d, n)
  {
    var i, yes :| |b| <= i < |c| && HandledAt(c, i, n, yes);
    assert HandledAt(d, i, n, yes);
  }

  /** pycastle's `_delete_merged_branches`. */
  method DeleteMergedBranches(git: Git, tracker: Tracker, merged: seq<nat>, issues: seq<nat>,
                              ghost h0: seq<Repo>, ghost c0: seq<nat>, ghost tips: map<nat, nat>)
    requires Phase(git, tracker, h0, c0, issues, tips) && forall n :: n in merged ==> n in issues
    modifies git`repo, git`history, git`log
    ensures Phase(git, tracker, h0, c0, issues, tips) && Keeps(old(git.repo), git.repo)
    ensures old(git.log) <= git.log && forall n :: n in merged ==> BranchHandled(old(git.log), git.log, n)
  {
    ghost var r := git.repo;
    KeepsSelf(r);
    for i := 0 to |merged|
      invariant Phase(git, tracker, h0, c0, issues, tips) && Keeps(r, git.repo)
      invariant old(git.log) <= git.log && forall j :: 0 <= j < i ==> BranchHandled(old(git.log), git.log, merged[j])
    {
      ghost var r1, l := git.repo, git.log;
      TearDown(git, tracker, merged[i], issues, h0, c0, tips);
      KeepsTrans(r, r1, git.repo);
      HandledStill(old(git.log), l, git.log, git.log, merged[i]);
      forall j | 0 <= j < i
        ensures BranchHandled(old(git.log), git.log, merged[j])
      {
        HandledStill(old(git.log), old(git.log), l, git.log, merged[j]);
      }
    }
  }

  /** The closed issues are the earlier ones and some of these. */
  predicate ClosedSome(before: seq<nat>, after: seq<nat>, some: seq<nat>)
  {
    before <= after && forall n :: n in after[|before|..] ==> n in some
  }

  lemma ClosedMore(a: seq<nat>, b: seq<nat>, c: seq<nat>, some: seq<nat>, more: seq<nat>, all: seq<nat>)
    requires ClosedSome(a, b, some) && ClosedSome(b, c, more)
    requires forall n :: n in some || n in more ==> n in all
    ensures ClosedSome(a, c, all)
  {
    assert c[|a|..] == b[|a|..] + c[|b|..];
  }

  lemma RequestsMore(requests: seq<nat>, merged: seq<nat>, i: nat)
    requires i < |merged|
    ensures requests + merged[..i] + [merged[i]] == requests + merged[..i + 1]
  {
    assert merged[..i + 1] == merged[..i] + [merged[i]];
  }

  method Close(git: Git, tracker: Tracker, n: nat, issues: seq<nat>, ghost h0: seq<Repo>, ghost c0: seq<nat>, ghost tips: map<nat, nat>)
    requires Phase(git, tracker, h0, c0, issues, tips) && IsMerged(git.repo, tips, n)
    modifies tracker
    ensures Phase(git, tracker, h0, c0, issues, tips)
    ensures ClosedSome(old(tracker.closed), tracker.closed, [n])
    ensures tracker.requests == old(tracker.requests) + [n]
  {
    tracker.CloseIssue(git, n, tips);
  }

  /** pycastle's `_close_issues_parallel`, for any order of the calls: each issue is merged already. */
  method CloseIssues(git: Git, tracker: Tracker, merged: seq<nat>, issues: seq<nat>,
                     ghost h0: seq<Repo>, ghost c0: seq<nat>, ghost tips: map<nat, nat>)
    requires Phase(git, tracker, h0, c0, issues, tips) && AllMerged(git.repo, merged, tips)
    modifies tracker
    ensures Phase(git, tracker, h0, c0, issues, tips)
    ensures ClosedSome(old(tracker.closed), tracker.closed, merged)
    ensures tracker.requests == old(tracker.requests) + merged
  {
    for i := 0 to |merged|
      invariant Phase(git, tracker, h0, c0, issues, tips)
      invariant tracker.requests == old(tracker.requests) + merged[..i]
      invariant ClosedSome(old(tracker.closed), tracker.closed, merged)
    {
      assert merged[i] in merged;
      ghost var before := tracker.closed;
      Close(git, tracker, merged[i], issues, h0, c0, tips);
      ClosedMore(old(tracker.closed), before, tracker.closed, merged, [merged[i]], merged);
      RequestsMore(old(tracker.requests), merged, i);
    }
    assert merged[..|merged|] == merged;
  }

  // ---------- conflict recovery ----------

  datatype Recovery = Recovered | StaysPending | Raised

  /** An error of the recovery is either passed on or makes the issue stay pending. */
  method Failing() returns (r: Recovery)
    ensures r != Recovered
  {
    var passedOn: bool := *;
    r := if passedOn then Raised else StaysPending;
  }

  /** pycastle's `_ensure_conflict_branch_is_merged`. */
  method EnsureMerged(git: Git, tracker: Tracker, s: Branch, n: nat, issues: seq<nat>, ghost h0: seq<Repo>, ghost c0: seq<nat>, ghost tips: map<nat, nat>)
    returns (yes: bool)
    requires Phase(git, tracker, h0, c0, issues, tips) && n in issues && s in git.repo.refs
    modifies git`log
    ensures Phase(git, tracker, h0, c0, issues, tips)
    ensures yes ==> n in tips && Has(git.repo, s, tips[n])
    ensures git.log == old(git.log) + [Asked(Issue(n), s, yes)]
  {
    yes := git.IsAncestor(Issue(n), s);
  }

  /** The agent resolves the conflict in the sandbox, or does not, or gives up. */
  method Resolve(git: Git, tracker: Tracker, path: Path, s: Branch, issues: seq<nat>, ghost h0: seq<Repo>, ghost c0: seq<nat>, ghost tips: map<nat, nat>)
    requires Phase(git, tracker, h0, c0, issues, tips) && At(git.repo, path, s) && s.Sandbox?
    modifies git`repo, git`history, git`log
    ensures Phase(git, tracker, h0, c0, issues, tips) && At(git.repo, path, s) && old(git.log) <= git.log
  {
    ghost var r := git.repo;
    AgentAtWork(git, IssueBranches(issues) + {s}, path, s);
    InPhaseStays(r, git.repo, s, tracker.closed[|c0|..], issues, tips);
  }

  method CommitMerge(git: Git, tracker: Tracker, path: Path, s: Branch, issues: seq<nat>, ghost h0: seq<Repo>, ghost c0: seq<nat>, ghost tips: map<nat, nat>)
    requires Phase(git, tracker, h0, c0, issues, tips) && At(git.repo, path, s) && s.Sandbox?
    modifies git`repo, git`history, git`log
    ensures Phase(git, tracker, h0, c0, issues, tips) && At(git.repo, path, s) && old(git.log) <= git.log
  {
    ghost var r := git.repo;
    var staged: bool := *;
    if staged {
      git.Commit(path, s);
      InPhaseStays(r, git.repo, s, tracker.closed[|c0|..], issues, tips);
    }
  }

  /** The body of the sandbox: true only after the operating branch has been advanced to contain the issue's branch, and
      otherwise because of a failed merge, a failed agent or an answer of git. */
  method MergeInSandbox(git: Git, tracker: Tracker, path: Path, s: Branch, n: nat, issues: seq<nat>,
                        ghost h0: seq<Repo>, ghost c0: seq<nat>, ghost tips: map<nat, nat>)
    returns (ok: bool)
    requires Phase(git, tracker, h0, c0, issues, tips) && At(git.repo, path, s) && s.Sandbox? && n in issues
    modifies git
    ensures Phase(git, tracker, h0, c0, issues, tips)
    ensures ok ==> IsMerged(git.repo, tips, n)
    ensures old(git.log) <= git.log && TriedOnce(old(git.tries), git.tries, s, n)
    ensures !ok ==> Troubled(old(git.log), git.log) || FailedTry(old(git.tries), git.tries)
  {
    ok := true;
    var result := MergeOne(git, tracker, path, s, n, true, issues, h0, c0, tips);
    assert git.tries[|old(git.tries)|].result == result;
    if result == Failed {
      return false;
    }
    ghost var l := git.log;
    if result == Conflict {
      ok := ResolveConflict(git, tracker, path, s, issues, h0, c0, tips);
    }
    ghost var l1 := git.log;
    if ok {
      ok := AdvanceMerged(git, tracker, path, s, n, issues, h0, c0, tips);
    }
    Overall(l, l, l1, git.log);
  }

  /** The merge was tried once. */
  predicate TriedOnce(before: seq<Try>, after: seq<Try>, s: Branch, n: nat)
  {
    |after| == |before| + 1 && before <= after && after[|before|].s == s && after[|before|].b == Issue(n)
  }

  method ResolveConflict(git: Git, tracker: Tracker, path: Path, s: Branch, issues: seq<nat>,
                         ghost h0: seq<Repo>, ghost c0: seq<nat>, ghost tips: map<nat, nat>)
    returns (ok: bool)
    requires Phase(git, tracker, h0, c0, issues, tips) && At(git.repo, path, s) && s.Sandbox?
    modifies git`repo, git`history, git`log
    ensures Phase(git, tracker, h0, c0, issues, tips) && At(git.repo, path, s)
    ensures old(git.log) <= git.log && (!ok ==> Troubled(old(git.log), git.log))
  {
    Resolve(git, tracker, path, s, issues, h0, c0, tips);
    ghost var l := git.log;
    var failed := git.AgentEnds();
    if failed {
      TroubleAt(l, AgentRan(true), git.log);
      TroubledIn(old(git.log), l, git.log, git.log);
      return false;
    }
    CommitMerge(git, tracker, path, s, issues, h0, c0, tips);
    ok := true;
  }

  /** Only a sandbox that contains the issue's branch becomes the operating branch. */
  method AdvanceMerged(git: Git, tracker: Tracker, path: Path, s: Branch, n: nat, issues: seq<nat>,
                       ghost h0: seq<Repo>, ghost c0: seq<nat>, ghost tips: map<nat, nat>)
    returns (ok: bool)
    requires Phase(git, tracker, h0, c0, issues, tips) && At(git.repo, path, s) && s.Sandbox? && n in issues
    modifies git`repo, git`history, git`log
    ensures Phase(git, tracker, h0, c0, issues, tips)
    ensures ok ==> IsMerged(git.repo, tips, n)
    ensures old(git.log) <= git.log && (!ok ==> Troubled(old(git.log), git.log))
  {
    ghost var l := git.log;
    ok := EnsureMerged(git, tracker, s, n, issues, h0, c0, tips);
    if !ok {
      TroubleAt(l, Asked(Issue(n), s, false), git.log);
      return;
    }
    ghost var l1 := git.log;
    ok := AdvanceThroughGate(git, tracker, path, s, issues, h0, c0, tips);
    ghost var l2 := git.log;
    if ok {
      ok := EnsureMerged(git, tracker, s, n, issues, h0, c0, tips);
      if !ok {
        TroubleAt(l2, Asked(Issue(n), s, false), git.log);
      }
    }
    Overall(l, l1, l2, git.log);
  }

  /** pycastle's `_recover_active_conflict`: recovered unless something failed. */
  method RecoverActiveConflict(git: Git, tracker: Tracker, n: nat, issues: seq<nat>,
                               ghost h0: seq<Repo>, ghost c0: seq<nat>, ghost tips: map<nat, nat>)
    returns (result: Recovery)
    requires Phase(git, tracker, h0, c0, issues, tips) && n in issues
    modifies git
    ensures Phase(git, tracker, h0, c0, issues, tips)
    ensures result == Recovered ==> IsMerged(git.repo, tips, n) && TriedOnce(old(git.tries), git.tries, Sandbox(RecoveryPath(n)), n)
    ensures old(git.log) <= git.log && old(git.tries) <= git.tries
    ensures result != Recovered ==> Troubled(old(git.log), git.log) || FailedTry(old(git.tries), git.tries)
  {
    var path := RecoveryPath(n);
    var s := Sandbox(path);
    var resumable: bool := *;
    var lifecycle := if resumable then ReusableSandbox else ReplaceableMergeSandbox;
    var ok := EnterSandbox(git, tracker, lifecycle, path, s, git.repo.refs[Operating], issues, h0, c0, tips);
    ghost var l := git.log;
    if ok {
      ok := MergeInSandbox(git, tracker, path, s, n, issues, h0, c0, tips);
      ghost var r, l1 := git.repo, git.log;
      var left := LeaveSandbox(git, tracker, lifecycle, path, s, ok, issues, h0, c0, tips);
      if ok {
        OnStays(r, git.repo, tips[n]);
      }
      Overall(old(git.log), l, l1, git.log);
      ok := ok && left;
    }
    if ok {
      result := Recovered;
    } else {
      result := Failing();
    }
  }

  /** pycastle's `recover_conflicts`: in order, up to the first error. The branch goes first, then the issue is closed. */
  method RecoverConflicts(git: Git, tracker: Tracker, conflicts: seq<nat>, issues: seq<nat>,
                          ghost h0: seq<Repo>, ghost c0: seq<nat>, ghost tips: map<nat, nat>)
    returns (raised: bool, completed: seq<nat>, pending: seq<nat>)
    requires Phase(git, tracker, h0, c0, issues, tips) && forall n :: n in conflicts ==> n in issues
    modifies git, tracker
    ensures Phase(git, tracker, h0, c0, issues, tips)
    ensures Keeps(old(git.repo), git.repo)
    ensures !raised ==> completed + pending == conflicts && AllMerged(git.repo, completed, tips)
    ensures !raised ==> ClosedSome(old(tracker.closed), tracker.closed, completed)
    ensures tracker.requests == old(tracker.requests) + completed && completed <= conflicts
    ensures old(git.log) <= git.log && old(git.tries) <= git.tries
    ensures raised || pending != [] ==> Troubled(old(git.log), git.log) || FailedTry(old(git.tries), git.tries)
    ensures forall n :: n in completed ==> BranchHandled(old(git.log), git.log, n)
  {
    completed, pending := [], [];
    ghost var r0 := git.repo;
    KeepsSelf(r0);
    for i := 0 to |conflicts|
      invariant Phase(git, tracker, h0, c0, issues, tips) && Keeps(r0, git.repo)
      invariant completed == conflicts[..i] && AllMerged(git.repo, completed, tips)
      invariant ClosedSome(old(tracker.closed), tracker.closed, completed)
      invariant tracker.requests == old(tracker.requests) + completed
      invariant old(git.log) <= git.log && old(git.tries) <= git.tries
      invariant forall n :: n in completed ==> BranchHandled(old(git.log), git.log, n)
    {
      ghost var r, l, t := git.repo, git.log, git.tries;
      var result := RecoverOne(git, tracker, conflicts[i], issues, h0, c0, tips);
      KeepsTrans(r0, r, git.repo);
      MergedStay(r, git.repo, completed, tips);
      Overall(old(git.log), l, git.log, git.log);
      AllHandledStill(old(git.log), l, git.log, completed);
      if result != Recovered {
        FailedTryIn(old(git.tries), t, git.tries);
        return result == Raised, completed, conflicts[i..];
      }
      HandledStill(old(git.log), l, git.log, git.log, conflicts[i]);
      completed := completed + [conflicts[i]];
    }
    return false, completed, [];
  }

  lemma FailedTryIn(a: seq<Try>, b: seq<Try>, c: seq<Try>)
    requires a <= b <= c
    ensures a <= c && (FailedTry(b, c) ==> FailedTry(a, c))
  {
  }

  lemma AllHandledStill(a: seq<Event>, b: seq<Event>, c: seq<Event>, issues: seq<nat>)
    requires a <= b <= c && forall n :: n in issues ==> BranchHandled(a, b, n)
    ensures forall n :: n in issues ==> BranchHandled(a, c, n)
  {
    forall n | n in issues
      ensures BranchHandled(a, c, n)
    {
      HandledStill(a, a, b, c, n);
    }
  }

  /** One round of the recovery. */
  method RecoverOne(git: Git, tracker: Tracker, n: nat, issues: seq<nat>, ghost h0: seq<Repo>, ghost c0: seq<nat>, ghost tips: map<nat, nat>)
    returns (result: Recovery)
    requires Phase(git, tracker, h0, c0, issues, tips) && n in issues
    modifies git, tracker
    ensures Phase(git, tracker, h0, c0, issues, tips) && Keeps(old(git.repo), git.repo)
    ensures result == Recovered ==> IsMerged(git.repo, tips, n) && ClosedSome(old(tracker.closed), tracker.closed, [n])
    ensures result != Recovered ==> tracker.closed == old(tracker.closed)
    ensures tracker.requests == old(tracker.requests) + if result == Recovered then [n] else []
    ensures old(git.log) <= git.log && old(git.tries) <= git.tries
    ensures result != Recovered ==> Troubled(old(git.log), git.log) || FailedTry(old(git.tries), git.tries)
    ensures result == Recovered ==> BranchHandled(old(git.log), git.log, n)
  {
    ghost var h, r := git.history, git.repo;
    result := RecoverActiveConflict(git, tracker, n, issues, h, c0, tips);
    LastKeeps(git, h);
    if result == Recovered {
      ghost var r1, l := git.repo, git.log;
      TearDown(git, tracker, n, issues, h, c0, tips);
      OnStays(r1, git.repo, tips[n]);
      KeepsTrans(r, r1, git.repo);
      HandledStill(old(git.log), l, git.log, git.log, n);
      Close(git, tracker, n, issues, h, c0, tips);
    }
  }

  lemma LastKeeps(git: Git, h: seq<Repo>)
    requires git.Valid() && h != [] && h <= git.history
    ensures Keeps(h[|h| - 1], git.repo)
  {
    RunKeeps(git.history, |h| - 1, |git.history| - 1);
  }

  // ---------- the phase ----------

  datatype MergeResult = MergeResult(clean: seq<nat>, conflicts: seq<nat>, completedConflicts: seq<nat>, pending: seq<nat>, blocked: bool)

  /** The branches of the candidates, at the start. */
  function Tips(r: Repo, issues: seq<nat>): map<nat, nat>
  {
    map n | n in issues && Issue(n) in r.refs :: r.refs[Issue(n)]
  }

  lemma PickIn(all: seq<nat>, flags: seq<bool>, want: bool)
    requires |flags| == |all|
    ensures forall n :: n in Pick(all, flags, want) ==> n in all
  {
    PickSplits(all, flags);
    forall n | n in Pick(all, flags, want)
      ensures n in all
    {
      assert n in multiset(Pick(all, flags, want));
      assert n in multiset(all);
    }
  }

  /** pycastle's `merge_phase`. None is an exception. Whatever happens, the run keeps everybody's work, no candidate
      loses an unmerged branch, and an issue is closed only after the operating branch contains its branch. Every candidate
      is tried once; the clean ones and then the recovered ones are asked to be closed and their branches disposed of; and
      an exception, or an issue that stays pending, has a cause. */
  method MergePhase(git: Git, tracker: Tracker, issues: seq<nat>) returns (result: Option<MergeResult>, ghost flags: seq<bool>)
    requires git.Valid()
    modifies git, tracker
    ensures Phase(git, tracker, old(git.history), old(tracker.closed), issues, old(Tips(git.repo, issues)))
    ensures old(git.log) <= git.log && old(git.tries) <= git.tries
    ensures result.Some? ==> Accounted(issues, flags, result.value)
    ensures result.Some? ==> AllMerged(git.repo, result.value.clean + result.value.completedConflicts, old(Tips(git.repo, issues)))
    ensures result.Some? ==> ClosedSome(old(tracker.closed), tracker.closed, result.value.clean + result.value.completedConflicts)
    ensures result.Some? ==> tracker.requests == old(tracker.requests) + (result.value.clean + result.value.completedConflicts)
    ensures result.Some? ==> TriedFirst(old(git.tries), git.tries, issues, flags)
    ensures result.Some? ==> AllHandled(old(git.log), git.log, result.value.clean + result.value.completedConflicts)
    ensures result.None? || result.value.pending != [] ==>
              Troubled(old(git.log), git.log) || FailedTry(old(git.tries), git.tries) || (result.Some? && result.value.blocked)
    ensures result.Some? && result.value.blocked ==> Preflight(true) in git.log[|old(git.log)|..]
  {
    ghost var h0, c0, tips := git.history, tracker.closed, Tips(git.repo, issues);
    result, flags := None, [];
    var safeSha := git.repo.refs[Operating];
    var ok, clean, conflicts;
    ok, clean, conflicts, flags := ClassifyCandidates(git, tracker, issues, safeSha, h0, c0, tips);
    if !ok {
      return;
    }
    PickIn(issues, flags, true);
    PickIn(issues, flags, false);
    ghost var l, t := git.log, git.tries;
    CloseIssues(git, tracker, clean, issues, h0, c0, tips);
    ghost var r := git.repo;
    DeleteMergedBranches(git, tracker, clean, issues, h0, c0, tips);
    MergedStay(r, git.repo, clean, tips);
    AllHandledIn(old(git.log), l, git.log, git.log, clean);
    if conflicts == [] {
      assert clean + [] == clean;
      return Some(MergeResult(clean, [], [], [], false)), flags;
    }
    ghost var l1 := git.log;
    result := HandleConflicts(git, tracker, clean, conflicts, issues, h0, c0, tips);
    Overall(old(git.log), l1, git.log, git.log);
    FailedTryIn(old(git.tries), t, git.tries);
    if result.Some? {
      AllHandledIn(old(git.log), old(git.log), l1, git.log, clean);
      AllHandledIn(old(git.log), l1, git.log, git.log, result.value.completedConflicts);
      Assoc(old(tracker.requests), clean, result.value.completedConflicts);
      TriedStill(old(git.tries), t, git.tries, issues, flags);
    }
  }

  ghost predicate AllHandled(before: seq<Event>, after: seq<Event>, issues: seq<nat>)
  {
    forall n :: n in issues ==> BranchHandled(before, after, n)
  }

  lemma AllHandledIn(a: seq<Event>, b: seq<Event>, c: seq<Event>, d: seq<Event>, issues: seq<nat>)
    requires a <= b && b <= c && c <= d && AllHandled(b, c, issues)
    ensures AllHandled(a, d, issues)
  {
    forall n | n in issues
      ensures BranchHandled(a, d, n)
    {
      HandledStill(a, b, c, d, n);
    }
  }

  /** The first merges that were tried are one of each candidate, with these results. */
  predicate TriedFirst(before: seq<Try>, after: seq<Try>, issues: seq<nat>, flags: seq<bool>)
  {
    |before| + |issues| <= |after| && EachTried(before, after[..|before| + |issues|], issues, flags)
  }

  lemma TriedStill(a: seq<Try>, b: seq<Try>, c: seq<Try>, issues: seq<nat>, flags: seq<bool>)
    requires EachTried(a, b, issues, flags) && b <= c
    ensures TriedFirst(a, c, issues, flags)
  {
    assert c[..|b|] == b;
  }

  /** What follows when there are conflicts: the preflight checks, and then the recovery. */
  method HandleConflicts(git: Git, tracker: Tracker, clean: seq<nat>, conflicts: seq<nat>, issues: seq<nat>,
                         ghost h0: seq<Repo>, ghost c0: seq<nat>, ghost tips: map<nat, nat>)
    returns (result: Option<MergeResult>)
    requires Phase(git, tracker, h0, c0, issues, tips) && forall n :: n in conflicts ==> n in issues
    requires AllMerged(git.repo, clean, tips) && ClosedSome(c0, tracker.closed, clean)
    modifies git, tracker
    ensures Phase(git, tracker, h0, c0, issues, tips) && old(git.log) <= git.log && old(git.tries) <= git.tries
    ensures result.Some? ==> RecoveredRest(git.repo, tracker.closed, old(tracker.requests), tracker.requests, clean, conflicts, c0, tips, result.value)
    ensures result.Some? ==> AllHandled(old(git.log), git.log, result.value.completedConflicts)
    ensures result.None? || result.value.pending != [] ==>
              Troubled(old(git.log), git.log) || FailedTry(old(git.tries), git.tries) || (result.Some? && result.value.blocked)
    ensures result.Some? && result.value.blocked ==> Preflight(true) in git.log[|old(git.log)|..]
  {
    ghost var r := git.repo;
    Pause(git, tracker, BatchPath, BatchSandbox, issues, h0, c0, tips);
    MergedStay(r, git.repo, clean, tips);
    var blocked := git.AskPreflight();
    ghost var l := git.log;
    if blocked {
      assert git.log[|old(git.log)|] == Preflight(true);
      assert clean + [] == clean && old(tracker.requests) + [] == old(tracker.requests);
      return Some(MergeResult(clean, conflicts, [], conflicts, true));
    }
    result := RecoverRest(git, tracker, clean, conflicts, issues, h0, c0, tips);
    Overall(old(git.log), l, git.log, git.log);
    if result.Some? {
      AllHandledIn(old(git.log), l, git.log, git.log, result.value.completedConflicts);
    }
  }

  /** What the recovery leaves, together with the clean merges. */
  predicate RecoveredRest(r: Repo, closed: seq<nat>, requested: seq<nat>, requests: seq<nat>, clean: seq<nat>, conflicts: seq<nat>,
                          c0: seq<nat>, tips: map<nat, nat>, m: MergeResult)
  {
    && m.clean == clean && m.conflicts == conflicts
    && m.completedConflicts + m.pending == conflicts
    && AllMerged(r, clean + m.completedConflicts, tips)
    && ClosedSome(c0, closed, clean + m.completedConflicts)
    && requests == requested + m.completedConflicts
  }

  method RecoverRest(git: Git, tracker: Tracker, clean: seq<nat>, conflicts: seq<nat>, issues: seq<nat>,
                     ghost h0: seq<Repo>, ghost c0: seq<nat>, ghost tips: map<nat, nat>)
    returns (result: Option<MergeResult>)
    requires Phase(git, tracker, h0, c0, issues, tips) && forall n :: n in conflicts ==> n in issues
    requires AllMerged(git.repo, clean, tips) && ClosedSome(c0, tracker.closed, clean)
    modifies git, tracker
    ensures Phase(git, tracker, h0, c0, issues, tips) && old(git.log) <= git.log && old(git.tries) <= git.tries
    ensures result.Some? ==> RecoveredRest(git.repo, tracker.closed, old(tracker.requests), tracker.requests, clean, conflicts, c0, tips, result.value)
    ensures result.Some? ==> !result.value.blocked && AllHandled(old(git.log), git.log, result.value.completedConflicts)
    ensures result.None? || result.value.pending != [] ==> Troubled(old(git.log), git.log) || FailedTry(old(git.tries), git.tries)
  {
    ghost var r, c1 := git.repo, tracker.closed;
    var raised, completed, pending := RecoverConflicts(git, tracker, conflicts, issues, h0, c0, tips);
    if raised {
      return None;
    }
    MergedStay(r, git.repo, clean, tips);
    ClosedMore(c0, c1, tracker.closed, clean, completed, clean + completed);
    return Some(MergeResult(clean, conflicts, completed, pending, false));
  }

  /** Each candidate is in one of three places, and those not clean are still in order. */
  predicate Accounted(issues: seq<nat>, flags: seq<bool>, m: MergeResult)
  {
    && |flags| == |issues|
    && m.clean == Pick(issues, flags, true) && m.conflicts == Pick(issues, flags, false)
    && m.completedConflicts + m.pending == m.conflicts
  }

  /** Every completed issue ends up exactly once in exactly one of clean, completed conflict and pending. */
  lemma EachCandidateOnce(issues: seq<nat>, flags: seq<bool>, m: MergeResult)
    requires Accounted(issues, flags, m)
    ensures multiset(m.clean) + multiset(m.completedConflicts) + multiset(m.pending) == multiset(issues)
  {
    PickSplits(issues, flags);
    assert multiset(m.completedConflicts + m.pending) == multiset(m.completedConflicts) + multiset(m.pending);
  }

  /** An issue whose merge stays pending is not closed by the phase, when the candidates are different issues. */
  lemma PendingStaysOpen(issues: seq<nat>, flags: seq<bool>, m: MergeResult, before: seq<nat>, after: seq<nat>, n: nat)
    requires Accounted(issues, flags, m) && ClosedSome(before, after, m.clean + m.completedConflicts)
    requires multiset(issues)[n] <= 1 && n in m.pending
    ensures n !in after[|before|..]
  {
    EachCandidateOnce(issues, flags, m);
    assert multiset(m.pending)[n] >= 1;
    assert multiset(m.clean)[n] == 0 && multiset(m.completedConflicts)[n] == 0;
    assert n !in multiset(m.clean) && n !in multiset(m.completedConflicts);
  }
}
