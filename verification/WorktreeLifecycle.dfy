/** The worktree procedures, with other tasks and the user at work between any two git commands. */
module WorktreeLifecycle {
  import opened Outcomes
  import opened Worktrees
  import opened Text

  /** A branch whose commits are not all merged at the end has not been moved. */
  predicate UnmergedUnmoved(before: Repo, after: Repo, b: Branch)
    requires ValidRepo(after) && (b in before.refs ==> before.refs[b] < |after.graph|)
  {
    b in before.refs && !On(after, before.refs[b]) ==> b in after.refs && after.refs[b] == before.refs[b]
  }

  /** What every procedure on one branch and one worktree path promises, however it ends. */
  ghost predicate Careful(before: Repo, after: Repo, b: Branch, mine: set<Branch>)
  {
    && Keeps(before, after) && (b.Issue? ==> UnmergedUnmoved(before, after, b))
    && SameOthers(before, after, b, mine)
  }

  predicate SameOthers(before: Repo, after: Repo, b: Branch, mine: set<Branch>)
  {
    forall x :: x in mine && x != b ==> SameRef(before, after, x)
  }

  lemma CarefulRely(r: Repo, s: Repo, t: Repo, b: Branch, mine: set<Branch>)
    requires Careful(r, s, b, mine) && Keeps(s, t) && SameRef(s, t, b) && SameOthers(s, t, b, mine)
    ensures Careful(r, t, b, mine)
  {
    KeepsTrans(r, s, t);
    if b.Issue? && b in r.refs && On(s, r.refs[b]) {
      OnStays(s, t, r.refs[b]);
    }
  }

  lemma CarefulSelf(r: Repo, b: Branch, mine: set<Branch>)
    requires ValidRepo(r)
    ensures Careful(r, r, b, mine)
  {
    KeepsSelf(r);
  }

  /** Once the branch is expendable it may be moved: whatever it held at the start is merged. */
  lemma CarefulExpend(r: Repo, s: Repo, t: Repo, b: Branch, mine: set<Branch>)
    requires Careful(r, s, b, mine) && Keeps(s, t) && Expendable(s, b) && SameOthers(s, t, b, mine)
    ensures Careful(r, t, b, mine)
  {
    KeepsTrans(r, s, t);
    if b.Issue? && b in r.refs {
      assert On(s, r.refs[b]);
      OnStays(s, t, r.refs[b]);
    }
  }

  /** A procedure on branch b that started at the end of history h0 is at work. */
  ghost predicate Working(git: Git, h0: seq<Repo>, b: Branch, mine: set<Branch>)
    reads git
  {
    git.Valid() && h0 != [] && h0 <= git.history && Careful(h0[|h0| - 1], git.repo, b, mine)
  }

  method Wait(git: Git, mine: set<Branch>, ghost h0: seq<Repo>, b: Branch, path: Path)
    requires Working(git, h0, b, mine)
    modifies git`repo, git`history
    ensures Working(git, h0, b, mine)
    ensures SameRef(old(git.repo), git.repo, b) && SameTree(old(git.repo), git.repo, path)
    ensures Keeps(old(git.repo), git.repo)
    ensures old(Expendable(git.repo, b)) ==> Expendable(git.repo, b)
  {
    ghost var r := git.repo;
    git.Others(mine + {b}, {path});
    CarefulRely(h0[|h0| - 1], r, git.repo, b, mine);
    if Expendable(r, b) {
      ExpendableStays(r, git.repo, b);
    }
  }

  method Remove(git: Git, mine: set<Branch>, ghost h0: seq<Repo>, b: Branch, path: Path)
    requires Working(git, h0, b, mine)
    modifies git`repo, git`history, git`log
    ensures Working(git, h0, b, mine) && !OnDisk(git.repo, path)
    ensures git.repo.refs == old(git.repo).refs && git.repo.graph == old(git.repo).graph
    ensures git.log == old(git.log) + [Removed(path)]
  {
    ghost var r := git.repo;
    git.RemoveWorktree(path);
    CarefulRely(h0[|h0| - 1], r, git.repo, b, mine);
  }

  method Delete(git: Git, mine: set<Branch>, ghost h0: seq<Repo>, b: Branch) returns (ok: bool)
    requires Working(git, h0, b, mine) && Expendable(git.repo, b)
    modifies git`repo, git`history, git`log
    ensures Working(git, h0, b, mine)
    ensures git.repo == if ok then old(git.repo).(refs := old(git.repo).refs - {b}) else old(git.repo)
    ensures git.log == old(git.log) + [Deleted(b, ok)]
  {
    ghost var r := git.repo;
    ok := git.DeleteBranch(b);
    CarefulExpend(h0[|h0| - 1], r, git.repo, b, mine);
  }

  method Add(git: Git, mine: set<Branch>, ghost h0: seq<Repo>, path: Path, b: Branch, sha: Option<nat>) returns (ok: bool)
    requires Working(git, h0, b, mine) && (sha.Some? ==> sha.value < |git.repo.graph|)
    modifies git`repo, git`history, git`log
    ensures Working(git, h0, b, mine) && git.repo.graph == old(git.repo).graph && Keeps(old(git.repo), git.repo)
    ensures b in old(git.repo).refs ==> git.repo.refs == old(git.repo).refs
    ensures ok ==> b in git.repo.refs && path in git.repo.trees && git.repo.trees[path] == Fresh(b)
    ensures ok && b !in old(git.repo).refs && sha.Some? ==> git.repo.refs[b] == sha.value
    ensures git.log == old(git.log) + [Added(path, b, sha, ok)]
  {
    ghost var r := git.repo;
    ok := git.CreateWorktree(path, b, sha);
    if b in r.refs {
      CarefulRely(h0[|h0| - 1], r, git.repo, b, mine);
    } else {
      CarefulAbsent(h0[|h0| - 1], r, git.repo, b, mine);
    }
  }

  lemma CarefulAbsent(r: Repo, s: Repo, t: Repo, b: Branch, mine: set<Branch>)
    requires Careful(r, s, b, mine) && Keeps(s, t) && b !in s.refs && SameOthers(s, t, b, mine)
    ensures Careful(r, t, b, mine)
  {
    KeepsTrans(r, s, t);
    if b.Issue? && b in r.refs {
      assert On(s, r.refs[b]);
      OnStays(s, t, r.refs[b]);
    }
  }

  /** The operating branch contains all of the branch. */
  predicate Contained(r: Repo, b: Branch)
    requires ValidRepo(r)
  {
    b in r.refs && On(r, r.refs[b])
  }

  /** pycastle's `_recreate_stale_branch`: refused while the operating branch lacks something; else the worktree and the
      branch go and are made anew. */
  method RecreateStaleBranch(git: Git, mine: set<Branch>, ghost h0: seq<Repo>, path: Path, b: Branch, sha: Option<nat>) returns (ok: bool)
    requires Working(git, h0, b, mine) && b != Operating && (sha.Some? ==> sha.value < |git.repo.graph|)
    modifies git`repo, git`history, git`log
    ensures Working(git, h0, b, mine)
    ensures ok ==> b in git.repo.refs && (sha.Some? ==> git.repo.refs[b] == sha.value)
    ensures ok ==> path in git.repo.trees && git.repo.trees[path] == Fresh(b)
    ensures !old(Contained(git.repo, b)) ==> !ok && git.repo == old(git.repo) && git.log == old(git.log) + [Asked(b, Operating, false)]
    ensures ok ==> git.log == old(git.log) + [Asked(b, Operating, true), Removed(path), Deleted(b, true), Added(path, b, sha, true)]
    ensures !ok ==> Troubled(old(git.log), git.log)
    ensures old(git.log) + [Asked(b, Operating, old(Contained(git.repo, b)))] <= git.log
  {
    var merged := git.IsAncestor(b, Operating);
    if !merged {
      TroubleAt(old(git.log), Asked(b, Operating, false), git.log);
      return false;
    }
    ghost var l := git.log;
    ok := Remake(git, mine, h0, path, b, sha);
    if !ok {
      TroubledIn(old(git.log), l, git.log, git.log);
    }
  }

  /** The worktree and the branch go and are made anew. */
  method Remake(git: Git, mine: set<Branch>, ghost h0: seq<Repo>, path: Path, b: Branch, sha: Option<nat>) returns (ok: bool)
    requires Working(git, h0, b, mine) && b != Operating && (sha.Some? ==> sha.value < |git.repo.graph|) && Expendable(git.repo, b)
    modifies git`repo, git`history, git`log
    ensures Working(git, h0, b, mine)
    ensures ok ==> b in git.repo.refs && (sha.Some? ==> git.repo.refs[b] == sha.value)
    ensures ok ==> path in git.repo.trees && git.repo.trees[path] == Fresh(b)
    ensures ok ==> git.log == old(git.log) + [Removed(path), Deleted(b, true), Added(path, b, sha, true)]
    ensures !ok ==> Troubled(old(git.log), git.log)
  {
    ghost var l := git.log;
    Wait(git, mine, h0, b, path);
    ok := Drop(git, mine, h0, path, b);
    if !ok {
      TroubleAt(l + [Removed(path)], Deleted(b, false), git.log);
      TroubledIn(l, l + [Removed(path)], git.log, git.log);
      return;
    }
    ghost var l1 := git.log;
    Wait(git, mine, h0, b, path);
    ok := Add(git, mine, h0, path, b, sha);
    if ok {
      Assoc(l, [Removed(path), Deleted(b, true)], [Added(path, b, sha, true)]);
    } else {
      TroubleAt(l1, Added(path, b, sha, false), git.log);
      TroubledIn(l, l1, git.log, git.log);
    }
  }

  /** The worktree goes, and then its branch. */
  method Drop(git: Git, mine: set<Branch>, ghost h0: seq<Repo>, path: Path, b: Branch) returns (ok: bool)
    requires Working(git, h0, b, mine) && Expendable(git.repo, b)
    modifies git`repo, git`history, git`log
    ensures Working(git, h0, b, mine) && !OnDisk(git.repo, path) && |old(git.repo).graph| <= |git.repo.graph|
    ensures git.log == old(git.log) + [Removed(path), Deleted(b, ok)] && git.log == old(git.log) + [Removed(path)] + [Deleted(b, ok)]
    ensures ok ==> b !in git.repo.refs
  {
    Remove(git, mine, h0, b, path);
    Wait(git, mine, h0, b, path);
    ok := Delete(git, mine, h0, b);
    Assoc(old(git.log), [Removed(path)], [Deleted(b, ok)]);
  }

  /** pycastle's `_rebase_reused_branch_onto`: a branch with work of its own stays where it is. */
  method RebaseReusedBranch(git: Git, mine: set<Branch>, ghost h0: seq<Repo>, path: Path, b: Branch, sha: nat) returns (ok: bool)
    requires Working(git, h0, b, mine) && b != Operating && sha < |git.repo.graph|
    requires path in git.repo.trees && git.repo.trees[path].branch == Some(b) && b in git.repo.refs
    modifies git`repo, git`history, git`log
    ensures Working(git, h0, b, mine) && |old(git.repo).graph| <= |git.repo.graph|
    ensures b in git.repo.refs && path in git.repo.trees && git.repo.trees[path].branch == Some(b)
    ensures old(!On(git.repo, git.repo.refs[b])) ==> ok && git.repo == old(git.repo) && git.log == old(git.log)
    ensures old(On(git.repo, git.repo.refs[b])) ==> (ok ==> git.repo.refs[b] == sha) && git.log == old(git.log) + [Reset(path, sha, ok)]
    ensures ok && old(git.repo).trees[path] == Fresh(b) ==> git.repo.trees[path] == Fresh(b)
  {
    var own := git.CarriesOwnWork(b);
    if own {
      return true;
    }
    Wait(git, mine, h0, b, path);
    ghost var r := git.repo;
    ok := git.HardReset(path, sha, b);
    CarefulExpend(h0[|h0| - 1], r, git.repo, b, mine);
  }

  predicate OnDisk(r: Repo, path: Path)
  {
    path in r.trees && r.trees[path].onDisk
  }

  /** pycastle's `_create_worktree`. A registered worktree with project files is taken as it is. */
  method CreateIssueWorktree(git: Git, mine: set<Branch>, ghost h0: seq<Repo>, path: Path, b: Branch, sha: Option<nat>) returns (ok: bool)
    requires Working(git, h0, b, mine) && b != Operating && (sha.Some? ==> sha.value < |git.repo.graph|)
    modifies git`repo, git`history, git`log
    ensures Working(git, h0, b, mine)
    ensures ok && old(OnDisk(git.repo, path)) ==> git.repo == old(git.repo)
    ensures ok && !old(OnDisk(git.repo, path)) ==> b in git.repo.refs && path in git.repo.trees && git.repo.trees[path] == Fresh(b)
    ensures ok && !old(OnDisk(git.repo, path)) && sha.Some? ==>
              || git.repo.refs[b] == sha.value
              || (b in old(git.repo).refs && git.repo.refs[b] == old(git.repo).refs[b] && !old(On(git.repo, git.repo.refs[b])))
    ensures old(git.log) <= git.log && (if ok then LastLookWasGood(git.log, path) else Troubled(old(git.log), git.log))
  {
    var existed := git.HasBranch(b);
    var onDisk: bool := *;
    if path in git.repo.trees {
      onDisk := git.repo.trees[path].onDisk;
    }
    if onDisk {
      if path in git.repo.trees {
        ok := git.Look(path);
        if !ok {
          Remove(git, mine, h0, b, path);
          TroubleAt(old(git.log), Looked(path, false), git.log);
        }
        return;
      }
      Remove(git, mine, h0, b, path);
    }
    ghost var l := git.log;
    ok := AddAndSettle(git, mine, h0, path, b, sha, existed);
    if !ok {
      TroubledIn(old(git.log), l, git.log, git.log);
    }
  }

  /** The rest of `_create_worktree`. */
  method AddAndSettle(git: Git, mine: set<Branch>, ghost h0: seq<Repo>, path: Path, b: Branch, sha: Option<nat>, existed: bool) returns (ok: bool)
    requires Working(git, h0, b, mine) && b != Operating && (sha.Some? ==> sha.value < |git.repo.graph|)
    requires existed <==> b in git.repo.refs
    modifies git`repo, git`history, git`log
    ensures Working(git, h0, b, mine)
    ensures ok ==> b in git.repo.refs && path in git.repo.trees && git.repo.trees[path] == Fresh(b)
    ensures ok && sha.Some? ==>
              || git.repo.refs[b] == sha.value
              || (existed && git.repo.refs[b] == old(git.repo).refs[b] && !old(On(git.repo, git.repo.refs[b])))
    ensures old(git.log) <= git.log && (if ok then LastLookWasGood(git.log, path) else Troubled(old(git.log), git.log))
  {
    ghost var l := git.log;
    ok := AddAndRebase(git, mine, h0, path, b, sha, existed);
    if !ok {
      return;
    }
    ghost var l1 := git.log;
    ok := Settle(git, mine, h0, path, b, sha, existed);
    if !ok {
      TroubledIn(l, l1, git.log, git.log);
    }
  }

  /** The new worktree, and its branch moved to the requested commit unless it has work of its own. */
  method AddAndRebase(git: Git, mine: set<Branch>, ghost h0: seq<Repo>, path: Path, b: Branch, sha: Option<nat>, existed: bool) returns (ok: bool)
    requires Working(git, h0, b, mine) && b != Operating && (sha.Some? ==> sha.value < |git.repo.graph|)
    requires existed <==> b in git.repo.refs
    modifies git`repo, git`history, git`log
    ensures Working(git, h0, b, mine) && |old(git.repo).graph| <= |git.repo.graph|
    ensures ok ==> b in git.repo.refs && path in git.repo.trees && git.repo.trees[path] == Fresh(b)
    ensures ok && sha.Some? ==>
              || git.repo.refs[b] == sha.value
              || (existed && git.repo.refs[b] == old(git.repo).refs[b] && !old(On(git.repo, git.repo.refs[b])))
    ensures old(git.log) <= git.log && (!ok ==> Troubled(old(git.log), git.log))
  {
    ghost var r0 := git.repo;
    ok := Add(git, mine, h0, path, b, sha);
    if !ok {
      TroubleAt(old(git.log), Added(path, b, sha, false), git.log);
      return;
    }
    ghost var r1 := git.repo;
    Wait(git, mine, h0, b, path);
    KeepsTrans(r0, r1, git.repo);
    if existed && On(r0, r0.refs[b]) {
      OnStays(r0, git.repo, r0.refs[b]);
    }
    if existed && sha.Some? {
      ghost var l := git.log;
      ok := RebaseReusedBranch(git, mine, h0, path, b, sha.value);
      if !ok {
        TroubleAt(l, Reset(path, sha.value, false), git.log);
        TroubledIn(old(git.log), l, git.log, git.log);
      }
    }
  }

  /** A worktree without project files is made once more, if its branch is an old one, and given up if that does not help. */
  method Settle(git: Git, mine: set<Branch>, ghost h0: seq<Repo>, path: Path, b: Branch, sha: Option<nat>, existed: bool) returns (ok: bool)
    requires Working(git, h0, b, mine) && b != Operating && (sha.Some? ==> sha.value < |git.repo.graph|)
    requires b in git.repo.refs && path in git.repo.trees && git.repo.trees[path] == Fresh(b)
    modifies git`repo, git`history, git`log
    ensures Working(git, h0, b, mine)
    ensures ok ==> b in git.repo.refs && path in git.repo.trees && git.repo.trees[path] == Fresh(b)
    ensures ok ==> git.repo.refs == old(git.repo).refs || (sha.Some? ==> git.repo.refs[b] == sha.value)
    ensures old(git.log) <= git.log && (!ok ==> Troubled(old(git.log), git.log))
    ensures LookedTwice(old(git.log), git.log, path, b, existed, ok)
  {
    ghost var l := git.log;
    var files := git.Look(path);
    ghost var l1 := git.log;
    if !files && existed {
      ok := RecreateStaleBranch(git, mine, h0, path, b, sha);
      if !ok {
        TroubledIn(l, l1, git.log, git.log);
        FirstLook(l, git.log, path, b, existed, files, ok);
        return;
      }
    }
    ghost var l2 := git.log;
    ok := LookOrRemove(git, mine, h0, path, b);
    if !ok {
      TroubledIn(l1, l2, git.log, git.log);
      TroubledIn(l, l1, git.log, git.log);
    }
    FirstLook(l, git.log, path, b, existed, files, ok);
  }

  lemma FirstLook(before: seq<Event>, after: seq<Event>, path: Path, b: Branch, existed: bool, files: bool, ok: bool)
    requires before + [Looked(path, files)] <= after
    requires if !files && existed then exists yes :: before + [Looked(path, files)] + [Asked(b, Operating, yes)] <= after
             else before + [Looked(path, files)] + [Looked(path, ok)] <= after
    requires if ok then LastLookWasGood(after, path) else Troubled(before + [Looked(path, files)], after)
    ensures LookedTwice(before, after, path, b, existed, ok)
  {
  }

  /** The last look; without project files the worktree goes. */
  method LookOrRemove(git: Git, mine: set<Branch>, ghost h0: seq<Repo>, path: Path, b: Branch) returns (ok: bool)
    requires Working(git, h0, b, mine)
    modifies git`repo, git`history, git`log
    ensures Working(git, h0, b, mine) && (ok ==> git.repo == old(git.repo))
    ensures old(git.log) + [Looked(path, ok)] <= git.log
    ensures if ok then LastLookWasGood(git.log, path) else Troubled(old(git.log), git.log)
  {
    ok := git.Look(path);
    if !ok {
      Remove(git, mine, h0, b, path);
      TroubleAt(old(git.log), Looked(path, false), git.log);
    }
  }

  /** Without project files an old branch is asked about to be made anew; after that, or with project files, there is another
      look. It is good when that one finds files, and failing has its cause behind the first look. */
  ghost predicate LookedTwice(before: seq<Event>, after: seq<Event>, path: Path, b: Branch, existed: bool, ok: bool)
  {
    exists files ::
      && before + [Looked(path, files)] <= after && |after| > |before| + 1
      && (if !files && existed then after[|before| + 1].Asked? && after[|before| + 1].b == b
          else after[|before| + 1] == Looked(path, ok))
      && (ok ==> LastLookWasGood(after, path))
      && (!ok ==> Troubled(before + [Looked(path, files)], after))
  }

  predicate LastLookWasGood(log: seq<Event>, path: Path)
  {
    log != [] && log[|log| - 1] == Looked(path, true)
  }

  /** pycastle's `_cleanup_stale_named_worktree`: best effort, failures are ignored. */
  method CleanupStale(git: Git, mine: set<Branch>, ghost h0: seq<Repo>, path: Path, b: Branch)
    requires Working(git, h0, b, mine) && b.Sandbox?
    modifies git`repo, git`history, git`log
    ensures Working(git, h0, b, mine) && |old(git.repo).graph| <= |git.repo.graph|
    ensures !OnDisk(git.repo, path) && old(git.log) <= git.log
    ensures b in git.repo.refs ==> Refused(old(git.log), git.log, b)
  {
    Remove(git, mine, h0, b, path);
    Wait(git, mine, h0, b, path);
    var left := git.HasBranch(b);
    if left {
      var ok := Delete(git, mine, h0, b);
      assert git.log[|git.log| - 1] == Deleted(b, ok);
    }
  }

  /** Git refused to delete the branch. */
  ghost predicate Refused(before: seq<Event>, after: seq<Event>, b: Branch)
  {
    before <= after && exists i :: |before| <= i < |after| && after[i] == Deleted(b, false)
  }

  predicate Reusable(r: Repo, path: Path, b: Branch)
  {
    path in r.trees && r.trees[path].onDisk && r.trees[path].branch == Some(b) && r.trees[path].session
  }

  /** The entry of `managed_worktree`. A worktree that holds a session on the branch is handed out as it is, so the
      work goes on where it was left; only a merge sandbox is always rebuilt. */
  method Enter(git: Git, mine: set<Branch>, ghost h0: seq<Repo>, lifecycle: Lifecycle, path: Path, b: Branch, sha: Option<nat>) returns (ok: bool)
    requires Working(git, h0, b, mine) && b != Operating && (Disposable(lifecycle) ==> b.Sandbox?)
    requires sha.Some? ==> sha.value < |git.repo.graph|
    modifies git`repo, git`history, git`log
    ensures Working(git, h0, b, mine)
    ensures ok ==> path in git.repo.trees
    ensures !RebuildsOnEnter(lifecycle) && old(Reusable(git.repo, path, b)) ==> ok && git.repo == old(git.repo)
    ensures ok && (Disposable(lifecycle) || !old(OnDisk(git.repo, path))) ==>
              git.repo.trees[path].branch == Some(b) && b in git.repo.refs
    ensures ok && lifecycle == ReplaceableMergeSandbox ==> git.repo.trees[path] == Fresh(b)
    ensures ok && Disposable(lifecycle) && (lifecycle == ReplaceableMergeSandbox || !old(Reusable(git.repo, path, b))) && sha.Some? ==>
              git.repo.refs[b] == sha.value || Refused(old(git.log), git.log, b)
    ensures old(git.log) <= git.log && (!ok ==> Troubled(old(git.log), git.log))
    ensures ok && (RebuildsOnEnter(lifecycle) || !old(Reusable(git.repo, path, b))) ==> LastLookWasGood(git.log, path)
    ensures ok && !Disposable(lifecycle) && !old(OnDisk(git.repo, path)) && sha.Some? ==>
              || git.repo.refs[b] == sha.value
              || (b in old(git.repo).refs && git.repo.refs[b] == old(git.repo).refs[b] && !old(On(git.repo, git.repo.refs[b])))
  {
    ok := true;
    if RebuildsOnEnter(lifecycle) || !Reusable(git.repo, path, b) {
      if Disposable(lifecycle) {
        CleanupStale(git, mine, h0, path, b);
      }
      ghost var l := git.log;
      ok := CreateIssueWorktree(git, mine, h0, path, b, sha);
      if !ok {
        TroubledIn(old(git.log), l, git.log, git.log);
      }
      RefusedStill(old(git.log), l, git.log, b);
    }
  }

  lemma RefusedStill(a: seq<Event>, b: seq<Event>, c: seq<Event>, s: Branch)
    requires a <= b <= c
    ensures Refused(a, b, s) ==> Refused(a, c, s)
  {
    if Refused(a, b, s) {
      var i :| |a| <= i < |b| && b[i] == Deleted(s, false);
      assert c[i] == b[i];
    }
  }

  /** pycastle's `_teardown_worktree_branch`, on the way out of `managed_worktree`. Neither a failed run's worktree
      nor a dirty one nor one with a session is touched. */
  method TeardownWorktreeBranch(git: Git, mine: set<Branch>, ghost h0: seq<Repo>, lifecycle: Lifecycle, path: Path, b: Branch, worthy: bool)
    returns (ok: bool)
    requires Working(git, h0, b, mine) && b != Operating && (Disposable(lifecycle) ==> b.Sandbox?)
    modifies git`repo, git`history, git`log
    ensures Working(git, h0, b, mine)
    ensures !Disposable(lifecycle) && b in old(git.repo).refs && !old(On(git.repo, git.repo.refs[b])) ==>
              b in git.repo.refs && git.repo.refs[b] == old(git.repo).refs[b]
    ensures exists dirty ::
              && (path in old(git.repo).trees && !old(git.repo).trees[path].clean ==> dirty)
              && TornDown(old(git.repo), git.repo, old(git.log) + [Status(path, dirty)], git.log, lifecycle, path, b,
                          worthy || dirty || old(HasSession(git.repo, path)), ok)
  {
    var dirty := git.IsDirty(path);
    if worthy || dirty || HasSession(git.repo, path) {
      return true;
    }
    var own := git.CarriesOwnWork(b);
    Wait(git, mine, h0, b, path);
    ok := true;
    if Disposable(lifecycle) || !own {
      ok := Drop(git, mine, h0, path, b);
    } else {
      Remove(git, mine, h0, b, path);
    }
  }

  predicate HasSession(r: Repo, path: Path)
  {
    path in r.trees && r.trees[path].session
  }

  /** A worktree that is kept is left as it is. Otherwise it goes, and its branch with it unless the branch is durable
      and has work of its own; what fails is the deletion of the branch. */
  predicate TornDown(r: Repo, r': Repo, before: seq<Event>, after: seq<Event>, lifecycle: Lifecycle, path: Path, b: Branch, kept: bool, ok: bool)
    requires ValidRepo(r)
  {
    if kept then ok && r' == r && after == before
    else
      && !OnDisk(r', path)
      && (if lifecycle == DurableIssue && b in r.refs && !On(r, r.refs[b]) then ok && after == before + [Removed(path)]
          else after == before + [Removed(path), Deleted(b, ok)] && (ok ==> b !in r'.refs))
  }

  /** A run in a worktree, of an agent or of the merge steps: commits on the worktree's branch, anything on disk. */
  method AgentAtWork(git: Git, mine: set<Branch>, path: Path, b: Branch)
    requires git.Valid() && b in mine && b != Operating
    requires b in git.repo.refs && path in git.repo.trees && git.repo.trees[path].branch == Some(b)
    modifies git`repo, git`history, git`log
    ensures old(git.log) <= git.log
    ensures git.Valid() && old(git.history) <= git.history && Keeps(old(git.repo), git.repo)
    ensures b in git.repo.refs && path in git.repo.trees && git.repo.trees[path].branch == Some(b)
    ensures SameOthers(old(git.repo), git.repo, b, mine)
  {
    ghost var r0 := git.repo;
    KeepsSelf(r0);
    var rounds: nat :| true;
    for i := 0 to rounds
      invariant git.Valid() && old(git.history) <= git.history && Keeps(r0, git.repo) && old(git.log) <= git.log
      invariant b in git.repo.refs && path in git.repo.trees && git.repo.trees[path].branch == Some(b)
      invariant SameOthers(r0, git.repo, b, mine)
    {
      ghost var r := git.repo;
      AgentStep(git, mine, path, b);
      KeepsTrans(r0, r, git.repo);
    }
  }

  method AgentStep(git: Git, mine: set<Branch>, path: Path, b: Branch)
    requires git.Valid() && b in mine && b != Operating
    requires b in git.repo.refs && path in git.repo.trees && git.repo.trees[path].branch == Some(b)
    modifies git`repo, git`history, git`log
    ensures old(git.log) <= git.log
    ensures git.Valid() && old(git.history) <= git.history && Keeps(old(git.repo), git.repo)
    ensures b in git.repo.refs && path in git.repo.trees && git.repo.trees[path].branch == Some(b)
    ensures SameOthers(old(git.repo), git.repo, b, mine)
  {
    var commits: bool, touches: bool := *, *;
    if commits {
      git.Commit(path, b);
    } else if touches {
      git.Touch(path);
    } else {
      git.Others(mine, {path});
    }
  }

  /** pycastle's `managed_worktree` around an arbitrary run: entry, run, and the way out, however they end. */
  method ManagedWorktree(git: Git, lifecycle: Lifecycle, path: Path, b: Branch, sha: Option<nat>) returns (entered: bool)
    requires git.Valid() && b != Operating && (Disposable(lifecycle) ==> b.Sandbox?)
    requires sha.Some? ==> sha.value < |git.repo.graph|
    modifies git`repo, git`history, git`log
    ensures git.Valid() && old(git.history) <= git.history && old(git.log) <= git.log
    ensures if entered then LeftThrough(old(git.log), git.log, path) else Troubled(old(git.log), git.log)
  {
    CarefulSelf(git.repo, b, {});
    entered := Enter(git, {}, git.history, lifecycle, path, b, sha);
    if entered {
      ghost var l := git.log;
      Use(git, path, b);
      ghost var l1 := git.log;
      Leave(git, lifecycle, path, b);
      LeftStill(old(git.log), l1, git.log, path);
    }
  }

  method Use(git: Git, path: Path, b: Branch)
    requires git.Valid() && b != Operating
    requires path in git.repo.trees && git.repo.trees[path].branch == Some(b) ==> b in git.repo.refs
    modifies git`repo, git`history, git`log
    ensures git.Valid() && old(git.history) <= git.history && old(git.log) <= git.log
  {
    if path in git.repo.trees && git.repo.trees[path].branch == Some(b) {
      AgentAtWork(git, {b}, path, b);
    } else {
      git.Others({}, {});
    }
  }

  method Leave(git: Git, lifecycle: Lifecycle, path: Path, b: Branch)
    requires git.Valid() && b != Operating && (Disposable(lifecycle) ==> b.Sandbox?)
    modifies git`repo, git`history, git`log
    ensures git.Valid() && old(git.history) <= git.history
    ensures LeftThrough(old(git.log), git.log, path)
  {
    var worthy: bool := *;
    CarefulSelf(git.repo, b, {});
    var _ := TeardownWorktreeBranch(git, {}, git.history, lifecycle, path, b, worthy);
    assert git.log[|old(git.log)|].Status?;
  }

  lemma LeftStill(a: seq<Event>, b: seq<Event>, c: seq<Event>, path: Path)
    requires a <= b && LeftThrough(b, c, path)
    ensures LeftThrough(a, c, path)
  {
  }

  /** Whatever the run did, the way out began with a look at the worktree's status. */
  ghost predicate LeftThrough(before: seq<Event>, after: seq<Event>, path: Path)
  {
    before <= after && exists i :: |before| <= i < |after| && after[i].Status? && after[i].path == path
  }

  /** pycastle's `teardown_merged_branch`: nothing happens to a branch that the operating branch does not contain. */
  method TeardownMergedBranch(git: Git, mine: set<Branch>, path: Path, b: Branch) returns (deleted: bool)
    requires git.Valid() && b.Issue? && b in mine
    modifies git`repo, git`history, git`log
    ensures git.Valid() && old(git.history) <= git.history && Keeps(old(git.repo), git.repo)
    ensures deleted ==> b in old(git.repo).refs && b !in git.repo.refs && On(git.repo, old(git.repo).refs[b])
    ensures !deleted ==> SameRef(old(git.repo), git.repo, b)
    ensures SameOthers(old(git.repo), git.repo, b, mine)
    ensures !old(Contained(git.repo, b)) ==> !deleted && git.repo == old(git.repo) && git.log == old(git.log) + [Asked(b, Operating, false)]
    ensures old(Contained(git.repo, b)) ==>
              !OnDisk(git.repo, path) && git.log == old(git.log) + [Asked(b, Operating, true), Removed(path), Deleted(b, deleted)]
  {
    ghost var r0 := git.repo;
    var merged := git.IsAncestor(b, Operating);
    if !merged {
      KeepsSelf(r0);
      return false;
    }
    DropMergedWorktree(git, mine, path, b);
    ghost var r1 := git.repo;
    deleted := git.DeleteBranch(b);
    KeepsTrans(r0, r1, git.repo);
    if b in r0.refs {
      OnStays(r0, git.repo, r0.refs[b]);
    }
  }

  /** Removes the worktree of a merged branch, with others at work before and after. */
  method DropMergedWorktree(git: Git, mine: set<Branch>, path: Path, b: Branch)
    requires git.Valid() && b in mine && Expendable(git.repo, b)
    modifies git`repo, git`history, git`log
    ensures git.Valid() && old(git.history) <= git.history && Keeps(old(git.repo), git.repo)
    ensures Expendable(git.repo, b) && SameRef(old(git.repo), git.repo, b) && SameOthers(old(git.repo), git.repo, b, mine)
    ensures !OnDisk(git.repo, path) && git.log == old(git.log) + [Removed(path)]
  {
    ghost var r0 := git.repo;
    git.Others(mine, {path});
    ExpendableStays(r0, git.repo, b);
    ghost var r1 := git.repo;
    git.RemoveWorktree(path);
    KeepsTrans(r0, r1, git.repo);
    r1 := git.repo;
    git.Others(mine, {path});
    KeepsTrans(r0, r1, git.repo);
    ExpendableStays(r1, git.repo, b);
  }
}
