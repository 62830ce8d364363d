/** Branches and worktrees: entering, rebuilding, rebasing, leaving and tearing down, without losing a commit. */
module Worktrees {
  import opened Outcomes
  import opened Commits

  datatype Branch = Operating | Issue(number: nat) | Sandbox(name: string)

  type Path = string

  /** A registered worktree: its branch, an unfinished merge, and what is on disk. */
  datatype Tree = Tree(branch: Option<Branch>, merging: Option<nat>, onDisk: bool, clean: bool, session: bool)

  function Fresh(b: Branch): Tree { Tree(Some(b), None, true, true, false) }

  datatype Repo = Repo(graph: Graph, refs: map<Branch, nat>, trees: map<Path, Tree>)

  predicate ValidRepo(r: Repo)
  {
    && WellFormed(r.graph)
    && (forall b :: b in r.refs ==> r.refs[b] < |r.graph|)
    && Operating in r.refs
    && (forall p :: p in r.trees ==> ValidTree(r, r.trees[p]))
  }

  /** Git does not delete a branch that is checked out. */
  predicate ValidTree(r: Repo, t: Tree)
  {
    && (t.branch.Some? ==> t.branch.value in r.refs)
    && (t.merging.Some? ==> t.merging.value < |r.graph|)
  }

  /** The operating branch contains the commit. */
  predicate On(r: Repo, c: nat)
    requires ValidRepo(r) && c < |r.graph|
  {
    c in Reach(r.graph, r.refs[Operating])
  }

  /** One step further: history only grows, the operating branch only moves to descendants, and an issue branch
      only moves to descendants or, once the operating branch contains it, anywhere. */
  predicate Keeps(r: Repo, r': Repo)
  {
    && ValidRepo(r) && ValidRepo(r') && r.graph <= r'.graph
    && On(r', r.refs[Operating])
    && forall b :: b in r.refs && b.Issue? ==> KeepsBranch(r, r', b)
  }

  predicate KeepsBranch(r: Repo, r': Repo, b: Branch)
    requires ValidRepo(r) && ValidRepo(r') && r.graph <= r'.graph && b in r.refs
  {
    On(r', r.refs[b]) || (b in r'.refs && r.refs[b] in Reach(r'.graph, r'.refs[b]))
  }

  /** The commits that must not be lost. */
  ghost function Protected(r: Repo): set<nat>
    requires ValidRepo(r)
  {
    set b, c | b in r.refs && !b.Sandbox? && c in Reach(r.graph, r.refs[b]) :: c
  }

  lemma KeepsSelf(r: Repo)
    requires ValidRepo(r)
    ensures Keeps(r, r)
  {
  }

  lemma OnStays(r: Repo, r': Repo, c: nat)
    requires Keeps(r, r') && c < |r.graph| && On(r, c)
    ensures On(r', c)
  {
    ReachAcross(r.graph, r'.graph, c, r.refs[Operating], r'.refs[Operating]);
  }

  lemma KeepsTrans(r: Repo, s: Repo, t: Repo)
    requires Keeps(r, s) && Keeps(s, t)
    ensures Keeps(r, t)
  {
    OnStays(s, t, r.refs[Operating]);
    forall b | b in r.refs && b.Issue?
      ensures KeepsBranch(r, t, b)
    {
      assert KeepsBranch(r, s, b);
      if On(s, r.refs[b]) {
        OnStays(s, t, r.refs[b]);
      } else {
        assert KeepsBranch(s, t, b);
        if On(t, s.refs[b]) {
          ReachAcross(s.graph, t.graph, r.refs[b], s.refs[b], t.refs[Operating]);
        } else {
          ReachAcross(s.graph, t.graph, r.refs[b], s.refs[b], t.refs[b]);
        }
      }
    }
  }

  /** A step loses no protected commit. */
  lemma NothingLost(r: Repo, r': Repo)
    requires Keeps(r, r')
    ensures Protected(r) <= Protected(r')
  {
    forall c | c in Protected(r)
      ensures c in Protected(r')
    {
      var b :| b in r.refs && !b.Sandbox? && c in Reach(r.graph, r.refs[b]);
      if b == Operating {
        ReachAcross(r.graph, r'.graph, c, r.refs[b], r'.refs[Operating]);
      } else {
        assert KeepsBranch(r, r', b);
        if On(r', r.refs[b]) {
          ReachAcross(r.graph, r'.graph, c, r.refs[b], r'.refs[Operating]);
        } else {
          ReachAcross(r.graph, r'.graph, c, r.refs[b], r'.refs[b]);
        }
      }
    }
  }

  // ---------- runs ----------

  ghost predicate Run(h: seq<Repo>)
  {
    && h != [] && ValidRepo(h[0])
    && forall i :: 0 <= i < |h| - 1 ==> Keeps(h[i], h[i + 1])
  }

  lemma {:induction false} RunKeeps(h: seq<Repo>, i: nat, j: nat)
    requires Run(h) && i <= j < |h|
    ensures Keeps(h[i], h[j])
    decreases j - i
  {
    if i == j {
      assert i > 0 ==> Keeps(h[i - 1], h[i]);
    } else {
      RunKeeps(h, i, j - 1);
      assert Keeps(h[j - 1], h[j - 1 + 1]);
      KeepsTrans(h[i], h[j - 1], h[j]);
    }
  }

  /** Over a whole run of steps, of whichever tasks and in whichever order, no commit of the operating branch
      or of an issue branch is lost, and the operating branch only ever moves to descendants. */
  lemma NoWorkIsLost(h: seq<Repo>, i: nat, j: nat)
    requires Run(h) && i <= j < |h|
    ensures ValidRepo(h[i]) && ValidRepo(h[j]) && Protected(h[i]) <= Protected(h[j])
    ensures h[i].refs[Operating] in Reach(h[j].graph, h[j].refs[Operating])
  {
    RunKeeps(h, i, j);
    NothingLost(h[i], h[j]);
  }

  // ---------- whose branch it is ----------

  /** What a task may rely on while others work: nobody else touches its branches and worktrees. */
  predicate Rely(r: Repo, r': Repo, mine: set<Branch>, paths: set<Path>)
  {
    && Keeps(r, r')
    && (forall b :: b in mine ==> SameRef(r, r', b))
    && (forall p :: p in paths ==> SameTree(r, r', p))
  }

  predicate SameRef(r: Repo, r': Repo, b: Branch)
  {
    (b in r'.refs <==> b in r.refs) && (b in r.refs ==> r'.refs[b] == r.refs[b])
  }

  predicate SameTree(r: Repo, r': Repo, p: Path)
  {
    (p in r'.trees <==> p in r.trees) && (p in r.trees ==> r'.trees[p] == r.trees[p])
  }

  /** What each command of a task does: it keeps everybody's work and touches only the task's own. */
  predicate Guarantee(r: Repo, r': Repo, mine: set<Branch>, paths: set<Path>)
  {
    && Keeps(r, r')
    && (forall b :: b in r.refs.Keys + r'.refs.Keys && b !in mine ==> SameRef(r, r', b))
    && (forall p :: p in r.trees.Keys + r'.trees.Keys && p !in paths ==> SameTree(r, r', p))
  }

  /** So tasks with different branches and worktrees may rely on each other. */
  lemma TasksAreIndependent(r: Repo, r': Repo, mine: set<Branch>, paths: set<Path>, others: set<Branch>, otherPaths: set<Path>)
    requires Guarantee(r, r', mine, paths) && mine !! others && paths !! otherPaths
    ensures Rely(r, r', others, otherPaths)
  {
  }

  /** A branch that may be deleted or reset: a sandbox, or an issue branch whose commits are all merged. */
  predicate Expendable(r: Repo, b: Branch)
    requires ValidRepo(r)
  {
    b.Sandbox? || (b.Issue? && (b in r.refs ==> On(r, r.refs[b])))
  }

  lemma ExpendableStays(r: Repo, r': Repo, b: Branch)
    requires Keeps(r, r') && SameRef(r, r', b) && Expendable(r, b)
    ensures Expendable(r', b)
  {
    if b.Issue? && b in r.refs {
      OnStays(r, r', r.refs[b]);
    }
  }

  /** Moving or dropping an expendable branch keeps everything. */
  lemma ExpendKeeps(r: Repo, r': Repo, b: Branch)
    requires ValidRepo(r) && ValidRepo(r') && Expendable(r, b)
    requires r'.graph == r.graph && forall x :: x != b ==> SameRef(r, r', x)
    ensures Keeps(r, r')
  {
    assert SameRef(r, r', Operating);
    forall x | x in r.refs && x.Issue?
      ensures KeepsBranch(r, r', x)
    {
      assert x != b ==> SameRef(r, r', x);
    }
  }

  // ---------- git commands ----------

  datatype Lifecycle = DurableIssue | ReusableSandbox | ReplaceableMergeSandbox

  predicate Disposable(l: Lifecycle) { l != DurableIssue }

  predicate RebuildsOnEnter(l: Lifecycle) { l == ReplaceableMergeSandbox }

  /** What git, the disk, agents and the preflight checks answered to a task's commands. `files` says whether there are
      project files. */
  datatype Event =
    | Asked(b: Branch, target: Branch, yes: bool)
    | Looked(path: Path, files: bool)
    | Status(path: Path, dirty: bool)
    | Removed(path: Path)
    | Deleted(b: Branch, ok: bool)
    | Added(path: Path, b: Branch, sha: Option<nat>, ok: bool)
    | Reset(path: Path, commit: nat, ok: bool)
    | Committed(path: Path)
    | Moved(s: Branch, result: Advancing)
    | AgentRan(failed: bool)
    | Preflight(blocked: bool)

  /** A merge that was tried, and how it went. */
  datatype Try = Try(s: Branch, b: Branch, result: Merging)

  /** An answer that makes a procedure fail. */
  predicate Trouble(e: Event)
  {
    match e
    case Asked(_, _, yes) => !yes
    case Looked(_, files) => !files
    case Deleted(_, ok) => !ok
    case Added(_, _, _, ok) => !ok
    case Reset(_, _, ok) => !ok
    case Moved(_, result) => result != Advanced
    case AgentRan(failed) => failed
    case _ => false
  }

  ghost predicate FailedTry(before: seq<Try>, after: seq<Try>)
  {
    before <= after && exists i :: |before| <= i < |after| && after[i].result == Failed
  }

  /** Some answer since then was of that kind. */
  ghost predicate Troubled(before: seq<Event>, after: seq<Event>)
  {
    before <= after && exists i :: |before| <= i < |after| && Trouble(after[i])
  }

  lemma TroubleAt(before: seq<Event>, e: Event, after: seq<Event>)
    requires before + [e] <= after && Trouble(e)
    ensures Troubled(before, after)
  {
    assert after[|before|] == e;
  }

  lemma TroubledIn(a: seq<Event>, b: seq<Event>, c: seq<Event>, d: seq<Event>)
    requires a <= b && Troubled(b, c) && c <= d
    ensures Troubled(a, d)
  {
    var i :| |b| <= i < |c| && Trouble(c[i]);
    assert d[i] == c[i];
  }

  /** `log` and `tries` record what was asked of git and what it answered. */
  class Git {
    var repo: Repo
    ghost var history: seq<Repo>
    ghost var log: seq<Event>
    ghost var tries: seq<Try>

    /** The history of the repository is a run in which every step keeps everybody's work. */
    ghost predicate Valid()
      reads this
    {
      ValidRepo(repo) && Run(history) && history[|history| - 1] == repo
    }

    constructor (r: Repo)
      requires ValidRepo(r)
      ensures Valid() && repo == r && history == [r] && log == [] && tries == []
    {
      repo, history, log, tries := r, [r], [], [];
    }

    method Become(r: Repo)
      requires Valid() && Keeps(repo, r)
      modifies this`repo, this`history
      ensures Valid() && repo == r && history == old(history) + [r]
    {
      ghost var before := history;
      repo, history := r, history + [r];
      forall i | 0 <= i < |history| - 1
        ensures Keeps(history[i], history[i + 1])
      {
        assert history[i] == before[i];
        assert i < |before| - 1 ==> history[i + 1] == before[i + 1];
      }
    }

    /** The other tasks, the user and the remote do what they do, between any two commands. */
    method Others(mine: set<Branch>, paths: set<Path>)
      requires Valid()
      modifies this`repo, this`history
      ensures Valid() && old(history) <= history
      ensures Rely(old(repo), repo, mine, paths)
    {
      KeepsSelf(repo);
      var r: Repo := *;
      if Rely(repo, r, mine, paths) {
        Become(r);
      }
    }

    method HasBranch(b: Branch) returns (yes: bool)
      ensures yes <==> b in repo.refs
    {
      yes := b in repo.refs;
    }

    /** `git merge-base --is-ancestor`: an unknown branch is not an ancestor. */
    method IsAncestor(b: Branch, target: Branch) returns (yes: bool)
      requires ValidRepo(repo)
      modifies this`log
      ensures yes <==> b in repo.refs && target in repo.refs && repo.refs[b] in Reach(repo.graph, repo.refs[target])
      ensures log == old(log) + [Asked(b, target, yes)]
    {
      yes := b in repo.refs && target in repo.refs && repo.refs[b] in Reach(repo.graph, repo.refs[target]);
      log := log + [Asked(b, target, yes)];
    }

    /** Whether the worktree has project files. */
    method Look(path: Path) returns (files: bool)
      modifies this`log
      ensures log == old(log) + [Looked(path, files)]
    {
      files := *;
      log := log + [Looked(path, files)];
    }

    /** `git status`; an error counts as dirty. */
    method IsDirty(path: Path) returns (dirty: bool)
      modifies this`log
      ensures path in repo.trees && !repo.trees[path].clean ==> dirty
      ensures log == old(log) + [Status(path, dirty)]
    {
      dirty := *;
      if path in repo.trees && !repo.trees[path].clean {
        dirty := true;
      }
      log := log + [Status(path, dirty)];
    }

    /** Whether the preflight checks let the phase go on. */
    method AskPreflight() returns (blocked: bool)
      modifies this`log
      ensures log == old(log) + [Preflight(blocked)]
    {
      blocked := *;
      log := log + [Preflight(blocked)];
    }

    /** How an agent's run ends. */
    method AgentEnds() returns (failed: bool)
      modifies this`log
      ensures log == old(log) + [AgentRan(failed)]
    {
      failed := *;
      log := log + [AgentRan(failed)];
    }

    /** `git rev-list --count operating..branch` is positive; an unknown branch has no commits. */
    method CarriesOwnWork(b: Branch) returns (yes: bool)
      requires ValidRepo(repo)
      ensures yes <==> b in repo.refs && !On(repo, repo.refs[b])
    {
      if b !in repo.refs {
        return false;
      }
      AheadMeansNotContained(repo.graph, repo.refs[b], repo.refs[Operating]);
      return Reach(repo.graph, repo.refs[b]) - Reach(repo.graph, repo.refs[Operating]) != {};
    }

    /** Only ever called on an expendable branch. Git refuses while the branch is checked out. */
    method DeleteBranch(b: Branch) returns (ok: bool)
      requires Valid() && Expendable(repo, b)
      modifies this`repo, this`history, this`log
      ensures Valid() && old(history) <= history
      ensures Guarantee(old(repo), repo, {b}, {})
      ensures repo == if ok then old(repo).(refs := old(repo).refs - {b}) else old(repo)
      ensures ok ==> b in old(repo).refs && forall p :: p in repo.trees ==> repo.trees[p].branch != Some(b)
      ensures log == old(log) + [Deleted(b, ok)]
    {
      KeepsSelf(repo);
      ok := *;
      if ok && b in repo.refs && forall p :: p in repo.trees ==> repo.trees[p].branch != Some(b) {
        var r := repo.(refs := repo.refs - {b});
        ExpendKeeps(repo, r, b);
        Become(r);
      } else {
        ok := false;
      }
      log := log + [Deleted(b, ok)];
    }

    /** Forced; when git fails, the directory goes but the worktree stays registered. */
    method RemoveWorktree(path: Path)
      requires Valid()
      modifies this`repo, this`history, this`log
      ensures Valid() && old(history) <= history
      ensures Guarantee(old(repo), repo, {}, {path})
      ensures repo.graph == old(repo).graph && repo.refs == old(repo).refs
      ensures path in repo.trees ==> !repo.trees[path].onDisk
      ensures log == old(log) + [Removed(path)]
    {
      var removed: bool := *;
      var r := repo.(trees := if removed then repo.trees - {path}
                              else if path in repo.trees then repo.trees[path := repo.trees[path].(onDisk := false)] else repo.trees);
      SameHistory(repo, r);
      Become(r);
      log := log + [Removed(path)];
    }

    /** `git worktree add`, after pruning: on the branch if there is one, else on a new branch at the commit,
        or at the main checkout's commit if none is given. A failure can leave the new branch behind. */
    method CreateWorktree(path: Path, b: Branch, sha: Option<nat>) returns (ok: bool)
      requires Valid() && (sha.Some? ==> sha.value < |repo.graph|)
      modifies this`repo, this`history, this`log
      ensures Valid() && old(history) <= history
      ensures Guarantee(old(repo), repo, {b}, {path}) && repo.graph == old(repo).graph
      ensures b in old(repo).refs ==> repo.refs == old(repo).refs
      ensures ok ==> b in repo.refs && path in repo.trees && repo.trees[path] == Fresh(b)
      ensures ok && b !in old(repo).refs && sha.Some? ==> repo.refs[b] == sha.value
      ensures log == old(log) + [Added(path, b, sha, ok)]
    {
      var head: nat := *;
      var start: nat := if sha.Some? then sha.value else if 0 <= head < |repo.graph| then head else repo.refs[Operating];
      ok := *;
      var added: bool := *;
      var r := if ok then WithTree(repo, path, b, start) else if added then WithBranch(repo, path, b, start) else repo;
      TreeAddedKeeps(repo, path, b, start);
      Become(r);
      log := log + [Added(path, b, sha, ok)];
    }

    /** Only ever called on the worktree of an expendable branch. */
    method HardReset(path: Path, sha: nat, b: Branch) returns (ok: bool)
      requires Valid() && Expendable(repo, b) && sha < |repo.graph|
      requires path in repo.trees && repo.trees[path].branch == Some(b) && b in repo.refs
      modifies this`repo, this`history, this`log
      ensures Valid() && old(history) <= history
      ensures Guarantee(old(repo), repo, {b}, {path}) && repo.graph == old(repo).graph
      ensures b in repo.refs && path in repo.trees && repo.trees[path].branch == Some(b)
      ensures repo.refs[b] == if ok then sha else old(repo).refs[b]
      ensures repo.trees[path] == if ok then old(repo).trees[path].(merging := None, clean := true) else old(repo).trees[path]
      ensures log == old(log) + [Reset(path, sha, ok)]
    {
      KeepsSelf(repo);
      ok := *;
      if ok {
        var r := repo.(refs := repo.refs[b := sha], trees := repo.trees[path := repo.trees[path].(merging := None, clean := true)]);
        ExpendKeeps(repo, r, b);
        Become(r);
      }
      log := log + [Reset(path, sha, ok)];
    }

    /** A commit in a worktree, of a merge if one is unfinished there. */
    method Commit(path: Path, b: Branch)
      requires Valid() && path in repo.trees && repo.trees[path].branch == Some(b) && b in repo.refs && b != Operating
      modifies this`repo, this`history, this`log
      ensures Valid() && old(history) <= history
      ensures Guarantee(old(repo), repo, {b}, {path})
      ensures repo.graph == old(repo).graph + [{old(repo).refs[b]} + MergeHead(old(repo).trees[path])]
      ensures repo.refs == old(repo).refs[b := |old(repo).graph|]
      ensures repo.trees == old(repo).trees[path := old(repo).trees[path].(merging := None)]
      ensures log == old(log) + [Committed(path)]
    {
      var parents := {repo.refs[b]} + MergeHead(repo.trees[path]);
      var r := Repo(repo.graph + [parents], repo.refs[b := |repo.graph|], repo.trees[path := repo.trees[path].(merging := None)]);
      CommitKeeps(repo, r, b, parents);
      Become(r);
      log := log + [Committed(path)];
    }

    /** Work in a worktree other than commits: edits, sessions, giving up a merge. */
    method Touch(path: Path)
      requires Valid()
      modifies this`repo, this`history
      ensures Valid() && old(history) <= history
      ensures Guarantee(old(repo), repo, {}, {path})
      ensures repo.graph == old(repo).graph && repo.refs == old(repo).refs
      ensures path in old(repo).trees ==> path in repo.trees && repo.trees[path].branch == old(repo).trees[path].branch
    {
      KeepsSelf(repo);
      if path in repo.trees {
        var clean: bool, session: bool, abort: bool := *, *, *;
        var t := repo.trees[path];
        var r := repo.(trees := repo.trees[path := t.(clean := clean, session := session, merging := if abort then None else t.merging)]);
        SameHistory(repo, r);
        Become(r);
      }
    }

    /** `git merge` of branch b in the worktree of s. A conflict leaves the merge unfinished when `keep` is set and is
        aborted otherwise. */
    method Merge(path: Path, s: Branch, b: Branch, keep: bool) returns (result: Merging)
      requires Valid() && s.Sandbox? && s in repo.refs && path in repo.trees && repo.trees[path].branch == Some(s)
      modifies this`repo, this`history, this`tries
      ensures Valid() && old(history) <= history
      ensures Guarantee(old(repo), repo, {s}, {path})
      ensures s in repo.refs && path in repo.trees && repo.trees[path].branch == Some(s)
      ensures old(repo).refs[s] in Reach(repo.graph, repo.refs[s])
      ensures result == Merged ==> b in old(repo).refs && old(repo).refs[b] in Reach(repo.graph, repo.refs[s])
      ensures result == Conflict ==> b in old(repo).refs && (if keep then repo.trees[path].merging == Some(old(repo).refs[b]) else repo == old(repo))
      ensures result == Failed ==> repo == old(repo)
      ensures result == Conflict ==> repo.refs == old(repo).refs
      ensures b in old(repo).refs && old(repo.refs[b] in Reach(repo.graph, repo.refs[s])) ==> result == Merged && repo == old(repo)
      ensures b in old(repo).refs && old(repo.refs[s] in Reach(repo.graph, repo.refs[b])) ==> result == Merged && repo.graph == old(repo).graph
      ensures tries == old(tries) + [Try(s, b, result)]
    {
      KeepsSelf(repo);
      result := *;
      if b !in repo.refs {
        result := Failed;
      } else {
        result := MergeIn(path, s, repo.refs[b], keep);
      }
      tries := tries + [Try(s, b, result)];
    }

    method MergeIn(path: Path, s: Branch, theirs: nat, keep: bool) returns (result: Merging)
      requires Valid() && s.Sandbox? && s in repo.refs && path in repo.trees && repo.trees[path].branch == Some(s) && theirs < |repo.graph|
      modifies this`repo, this`history
      ensures Valid() && old(history) <= history
      ensures Guarantee(old(repo), repo, {s}, {path})
      ensures s in repo.refs && path in repo.trees && repo.trees[path].branch == Some(s)
      ensures old(repo).refs[s] in Reach(repo.graph, repo.refs[s])
      ensures result == Merged ==> theirs in Reach(repo.graph, repo.refs[s])
      ensures result == Conflict ==> if keep then repo.trees[path].merging == Some(theirs) else repo == old(repo)
      ensures result == Failed ==> repo == old(repo)
      ensures result == Conflict ==> repo.refs == old(repo).refs
      ensures old(theirs in Reach(repo.graph, repo.refs[s])) ==> result == Merged && repo == old(repo)
      ensures old(repo.refs[s] in Reach(repo.graph, theirs)) ==> result == Merged && repo.graph == old(repo).graph
    {
      KeepsSelf(repo);
      result := *;
      if theirs in Reach(repo.graph, repo.refs[s]) {
        return Merged;
      }
      if repo.refs[s] in Reach(repo.graph, theirs) {
        ForwardKeeps(repo, s, theirs);
        Become(Forwarded(repo, s, theirs));
        return Merged;
      }
      if result == Merged {
        MergeCommitKeeps(repo, s, theirs);
        Become(MergeCommit(repo, s, theirs));
      } else if result == Conflict && keep {
        ConflictKeeps(repo, path, theirs);
        Become(WithConflict(repo, path, theirs));
      }
    }

    /** `git fetch . s:operating`: forward only, and refused while the operating branch is checked out anywhere. */
    method Advance(s: Branch) returns (result: Advancing)
      requires Valid() && s.Sandbox?
      modifies this`repo, this`history, this`log
      ensures Valid() && old(history) <= history
      ensures Guarantee(old(repo), repo, {Operating}, {})
      ensures result == Advanced ==> s in old(repo).refs && repo == old(repo).(refs := old(repo).refs[Operating := old(repo).refs[s]])
      ensures result == Advanced ==> old(repo).refs[Operating] in Reach(repo.graph, repo.refs[Operating])
      ensures result != Advanced ==> repo == old(repo)
      ensures log == old(log) + [Moved(s, result)]
    {
      KeepsSelf(repo);
      result := *;
      if result == Advanced {
        if s in repo.refs && repo.refs[Operating] in Reach(repo.graph, repo.refs[s])
           && forall p :: p in repo.trees ==> repo.trees[p].branch != Some(Operating) {
          var r := repo.(refs := repo.refs[Operating := repo.refs[s]]);
          AdvanceKeeps(repo, r);
          Become(r);
        } else {
          result := NotForward;
        }
      }
      log := log + [Moved(s, result)];
    }
  }

  function Forwarded(r: Repo, s: Branch, theirs: nat): Repo
  {
    r.(refs := r.refs[s := theirs])
  }

  lemma ForwardKeeps(r: Repo, s: Branch, theirs: nat)
    requires ValidRepo(r) && s.Sandbox? && s in r.refs && theirs < |r.graph|
    ensures Guarantee(r, Forwarded(r, s, theirs), {s}, {})
  {
    ExpendKeeps(r, Forwarded(r, s, theirs), s);
  }

  function WithConflict(r: Repo, path: Path, theirs: nat): Repo
    requires path in r.trees
  {
    r.(trees := r.trees[path := r.trees[path].(merging := Some(theirs), clean := false)])
  }

  lemma ConflictKeeps(r: Repo, path: Path, theirs: nat)
    requires ValidRepo(r) && path in r.trees && theirs < |r.graph|
    ensures Guarantee(r, WithConflict(r, path, theirs), {}, {path})
  {
    SameHistory(r, WithConflict(r, path, theirs));
  }

  function MergeCommit(r: Repo, s: Branch, theirs: nat): Repo
    requires s in r.refs
  {
    r.(graph := r.graph + [{r.refs[s], theirs}], refs := r.refs[s := |r.graph|])
  }

  lemma MergeCommitKeeps(r: Repo, s: Branch, theirs: nat)
    requires ValidRepo(r) && s.Sandbox? && s in r.refs && theirs < |r.graph|
    ensures Guarantee(r, MergeCommit(r, s, theirs), {s}, {})
    ensures r.refs[s] in Reach(MergeCommit(r, s, theirs).graph, |r.graph|)
    ensures theirs in Reach(MergeCommit(r, s, theirs).graph, |r.graph|)
  {
    var parents := {r.refs[s], theirs};
    NewCommit(r.graph, parents);
    assert ValidRepo(MergeCommit(r, s, theirs));
    CommitKeeps(r, MergeCommit(r, s, theirs), s, parents);
  }

  datatype Merging = Merged | Conflict | Failed

  datatype Advancing = Advanced | CheckedOut | NotForward

  lemma AdvanceKeeps(r: Repo, r': Repo)
    requires ValidRepo(r) && ValidRepo(r') && r'.graph == r.graph
    requires r'.refs == r.refs[Operating := r'.refs[Operating]]
    requires r.refs[Operating] in Reach(r.graph, r'.refs[Operating])
    ensures Keeps(r, r')
  {
  }

  function MergeHead(t: Tree): set<nat>
  {
    if t.merging.Some? then {t.merging.value} else {}
  }

  lemma CommitKeeps(r: Repo, r': Repo, b: Branch, parents: set<nat>)
    requires ValidRepo(r) && b in r.refs && b != Operating && r.refs[b] in parents && forall p :: p in parents ==> p < |r.graph|
    requires r'.graph == r.graph + [parents] && r'.refs == r.refs[b := |r.graph|]
    requires ValidRepo(r')
    ensures Keeps(r, r') && r.refs[b] in Reach(r'.graph, r'.refs[b])
  {
    NewCommit(r.graph, parents);
    forall x | x in r.refs && x.Issue?
      ensures KeepsBranch(r, r', x)
    {
      assert r.refs[x] in Reach(r'.graph, r'.refs[x]);
    }
  }

  lemma SameHistory(r: Repo, r': Repo)
    requires ValidRepo(r) && ValidRepo(r') && r'.graph == r.graph && r'.refs == r.refs
    ensures Keeps(r, r')
  {
  }

  /** The branch is there, at the start if it was not. */
  function WithRef(r: Repo, b: Branch, start: nat): map<Branch, nat>
  {
    if b in r.refs then r.refs else r.refs[b := start]
  }

  function WithTree(r: Repo, path: Path, b: Branch, start: nat): Repo
  {
    r.(refs := WithRef(r, b, start), trees := r.trees[path := Fresh(b)])
  }

  function WithBranch(r: Repo, path: Path, b: Branch, start: nat): Repo
  {
    r.(refs := WithRef(r, b, start), trees := r.trees - {path})
  }

  lemma TreeAddedKeeps(r: Repo, path: Path, b: Branch, start: nat)
    requires ValidRepo(r) && start < |r.graph|
    ensures Guarantee(r, WithTree(r, path, b, start), {b}, {path}) && Guarantee(r, WithBranch(r, path, b, start), {b}, {path})
    ensures Guarantee(r, r, {b}, {path})
  {
    KeepsSelf(r);
    NewBranchKeeps(r, WithTree(r, path, b, start), b);
    NewBranchKeeps(r, WithBranch(r, path, b, start), b);
  }

  lemma NewBranchKeeps(r: Repo, r': Repo, b: Branch)
    requires ValidRepo(r) && ValidRepo(r') && r'.graph == r.graph
    requires forall x :: x in r.refs ==> x in r'.refs && r'.refs[x] == r.refs[x]
    ensures Keeps(r, r')
  {
  }
}
