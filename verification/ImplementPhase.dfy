/** The implement phase: one task per issue, branch locks, a bound on open worktrees around a bound on running agents. */
module ImplementPhase {
  import opened MapSum
  import opened Outcomes

  datatype Role = Implementer | Reviewer

  datatype Step = Skip | Run | SetupFailure

  /** `implemented` and `complete` say which stages were marked done when the plan was made. */
  datatype Plan = Plan(implemented: bool, complete: bool, implement: Step, review: Step)

  datatype Outcome = Completed | Collided | Failed

  datatype Pc =
    | Begin
    | Planning                                  // holds the branch lock
    | Ready(todo: seq<Role>)                    // between two role steps
    | WantWorktree(todo: seq<Role>)
    | Entering(todo: seq<Role>)                 // holds a worktree permit
    | WantAgent(todo: seq<Role>)
    | Running(todo: seq<Role>)                  // holds an agent permit too
    | Leaving(todo: seq<Role>, failed: bool)
    | Releasing(failed: bool)
    | Finished(outcome: Outcome)

  /** `started` and `ended` are the roles whose agent was started, and whose step succeeded. */
  datatype Task = Task(issue: nat, pc: Pc, plan: Option<Plan>, started: seq<Role>, ended: seq<Role>)

  type TaskId = nat

  /** `worktrees` and `agents` count free permits. `implemented` and `reviewed` are the issues whose stage is marked done. */
  datatype State = State(
    maxParallel: nat,
    tasks: map<TaskId, Task>,
    worktrees: nat,
    agents: nat,
    locks: set<nat>,
    implemented: set<nat>,
    reviewed: set<nat>)

  datatype Action =
    | Reject
    | Lock
    | MakePlan(setupFailsImplementer: bool, setupFailsReviewer: bool)
    | PlanFails
    | NextStep
    | TakeWorktree
    | Enter
    | EnterFails
    | TakeAgent
    | AgentSucceeds(commits: bool)
    | AgentFails
    | Leave
    | LeaveFails
    | Release

  /** pycastle's `plan_issue_execution`. */
  function PlanFor(s: State, issue: nat, setupFailsImplementer: bool, setupFailsReviewer: bool): Plan
  {
    Plan(issue in s.implemented, issue in s.reviewed,
         if setupFailsImplementer then SetupFailure else if issue in s.reviewed || issue in s.implemented then Skip else Run,
         if setupFailsReviewer then SetupFailure else if issue in s.reviewed then Skip else Run)
  }

  /** The roles that `run_issue` goes through. */
  function Todo(p: Plan): seq<Role>
  {
    if p.complete then []
    else (if p.implement.Run? then [Implementer] else []) + if p.review.Run? then [Reviewer] else []
  }

  predicate Enabled(s: State, t: TaskId, a: Action)
  {
    t in s.tasks &&
    var pc := s.tasks[t].pc;
    match a
    case Reject => pc.Begin?
    case Lock => pc.Begin?
    case MakePlan(_, _) => pc.Planning?
    case PlanFails => pc.Planning?
    case NextStep => pc.Ready?
    case TakeWorktree => pc.WantWorktree? && s.worktrees > 0
    case Enter => pc.Entering?
    case EnterFails => pc.Entering?
    case TakeAgent => pc.WantAgent? && pc.todo != [] && s.agents > 0
    case AgentSucceeds(_) => pc.Running? && pc.todo != []
    case AgentFails => pc.Running?
    case Leave => pc.Leaving? && pc.todo != []
    case LeaveFails => pc.Leaving?
    case Release => pc.Releasing?
  }

  function Set(s: State, t: TaskId, me: Task): State
  {
    s.(tasks := s.tasks[t := me])
  }

  function Apply(s: State, t: TaskId, a: Action): State
    requires Enabled(s, t, a)
  {
    var me := s.tasks[t];
    var pc := me.pc;
    match a
    case Reject => Set(s, t, me.(pc := Finished(Failed)))
    case Lock =>
      if me.issue in s.locks then Set(s, t, me.(pc := Finished(Collided)))
      else Set(s, t, me.(pc := Planning)).(locks := s.locks + {me.issue})
    case MakePlan(i, r) =>
      var p := PlanFor(s, me.issue, i, r);
      Set(s, t, me.(pc := Ready(Todo(p)), plan := Some(p)))
    case PlanFails => Set(s, t, me.(pc := Releasing(true)))
    case NextStep => Set(s, t, me.(pc := if pc.todo == [] then Releasing(false) else WantWorktree(pc.todo)))
    case TakeWorktree => Set(s, t, me.(pc := Entering(pc.todo))).(worktrees := s.worktrees - 1)
    case Enter => Set(s, t, me.(pc := WantAgent(pc.todo)))
    case EnterFails => Set(s, t, me.(pc := Leaving(pc.todo, true)))
    case TakeAgent => Set(s, t, me.(pc := Running(pc.todo), started := me.started + [pc.todo[0]])).(agents := s.agents - 1)
    case AgentSucceeds(commits) =>
      Set(s, t, me.(pc := Leaving(pc.todo, false), ended := me.ended + [pc.todo[0]])).(
        agents := s.agents + 1,
        implemented := if commits && pc.todo[0].Implementer? then s.implemented + {me.issue} else s.implemented,
        reviewed := if commits && pc.todo[0].Reviewer? then s.reviewed + {me.issue} else s.reviewed)
    case AgentFails => Set(s, t, me.(pc := Leaving(pc.todo, true))).(agents := s.agents + 1)
    case Leave => Set(s, t, me.(pc := if pc.failed then Releasing(true) else Ready(pc.todo[1..]))).(worktrees := s.worktrees + 1)
    case LeaveFails => Set(s, t, me.(pc := Releasing(true))).(worktrees := s.worktrees + 1)
    case Release => Set(s, t, me.(pc := Finished(if pc.failed then Failed else Completed))).(locks := s.locks - {me.issue})
  }

  predicate Init(s: State)
  {
    && s.maxParallel >= 1 && s.worktrees == s.maxParallel + 1 && s.agents == s.maxParallel && s.locks == {}
    && forall t :: t in s.tasks ==> s.tasks[t] == Task(s.tasks[t].issue, Begin, None, [], [])
  }

  datatype Move = Move(task: TaskId, action: Action)

  ghost predicate IsBehavior(b: seq<State>, moves: seq<Move>)
  {
    && |b| == |moves| + 1
    && Init(b[0])
    && forall k :: 0 <= k < |moves| ==>
         Enabled(b[k], moves[k].task, moves[k].action) && b[k + 1] == Apply(b[k], moves[k].task, moves[k].action)
  }

  predicate AllFinished(s: State)
  {
    forall t :: t in s.tasks ==> s.tasks[t].pc.Finished?
  }

  // ---------- invariants ----------

  predicate HasWorktree(pc: Pc) { pc.Entering? || pc.WantAgent? || pc.Running? || pc.Leaving? }

  predicate HasLock(pc: Pc) { !pc.Begin? && !pc.Finished? }

  function Open(s: State): set<TaskId>
  {
    set t | t in s.tasks && HasWorktree(s.tasks[t].pc)
  }

  function AtWork(s: State): set<TaskId>
  {
    set t | t in s.tasks && s.tasks[t].pc.Running?
  }

  predicate Permits(s: State)
  {
    && |Open(s)| + s.worktrees == s.maxParallel + 1
    && |AtWork(s)| + s.agents == s.maxParallel && s.maxParallel >= 1
  }

  /** The locks are those of the tasks in between, and no two of these share a branch. */
  ghost predicate Locking(s: State)
  {
    && (forall t :: Holds(s, t) ==> s.tasks[t].issue in s.locks)
    && (forall t, u :: Holds(s, t) && Holds(s, u) && s.tasks[t].issue == s.tasks[u].issue ==> t == u)
    && forall i :: i in s.locks ==> exists t :: Holds(s, t) && s.tasks[t].issue == i
  }

  predicate Holds(s: State, t: TaskId)
  {
    t in s.tasks && HasLock(s.tasks[t].pc)
  }

  /** How far a task has come through its plan. */
  predicate OnPlan(me: Task)
  {
    match me.pc
    case Begin => me.plan.None? && me.started == me.ended == []
    case Planning => me.plan.None? && me.started == me.ended == []
    case Ready(todo) => me.plan.Some? && me.started == me.ended && me.ended + todo == Todo(me.plan.value)
    case WantWorktree(todo) => me.plan.Some? && todo != [] && me.started == me.ended && me.ended + todo == Todo(me.plan.value)
    case Entering(todo) => me.plan.Some? && todo != [] && me.started == me.ended && me.ended + todo == Todo(me.plan.value)
    case WantAgent(todo) => me.plan.Some? && todo != [] && me.started == me.ended && me.ended + todo == Todo(me.plan.value)
    case Running(todo) =>
      me.plan.Some? && todo != [] && me.started == me.ended + [todo[0]] && me.ended + todo == Todo(me.plan.value)
    case Leaving(todo, failed) =>
      && me.plan.Some? && todo != []
      && if failed then me.ended + todo == Todo(me.plan.value) && (me.started == me.ended || me.started == me.ended + [todo[0]])
         else me.started == me.ended && me.ended + todo[1..] == Todo(me.plan.value)
    case Releasing(failed) => if failed then Halfway(me) else Through(me)
    case Finished(outcome) => if outcome.Completed? then Through(me) else Halfway(me)
  }

  predicate Through(me: Task)
  {
    me.plan.Some? && me.started == me.ended == Todo(me.plan.value)
  }

  /** Some of the plan, in order; at most the last agent started has not succeeded. */
  predicate Halfway(me: Task)
  {
    && me.ended <= me.started && |me.started| <= |me.ended| + 1
    && if me.plan.None? then me.started == [] else me.started <= Todo(me.plan.value)
  }

  ghost predicate Inv(s: State)
  {
    Permits(s) && Locking(s) && forall t :: t in s.tasks ==> OnPlan(s.tasks[t])
  }

  lemma InitInv(s: State)
    requires Init(s)
    ensures Inv(s)
  {
    assert Open(s) == {} && AtWork(s) == {};
  }

  lemma StepFrame(s: State, t: TaskId, a: Action)
    requires Enabled(s, t, a)
    ensures
      var s' := Apply(s, t, a);
      && s'.tasks.Keys == s.tasks.Keys && s'.maxParallel == s.maxParallel
      && s'.tasks == s.tasks[t := s'.tasks[t]] && s'.tasks[t].issue == s.tasks[t].issue
  {
  }

  lemma SetSizes<T>(a: set<T>, b: set<T>, x: T)
    requires a - {x} == b - {x}
    ensures |b| == |a| - (if x in a then 1 else 0) + if x in b then 1 else 0
  {
    assert a == (if x in a then {x} else {}) + (a - {x});
    assert b == (if x in b then {x} else {}) + (b - {x});
  }

  lemma StepPermits(s: State, t: TaskId, a: Action)
    requires Permits(s) && Enabled(s, t, a)
    ensures Permits(Apply(s, t, a))
  {
    var s' := Apply(s, t, a);
    StepFrame(s, t, a);
    assert Open(s) - {t} == Open(s') - {t};
    assert AtWork(s) - {t} == AtWork(s') - {t};
    SetSizes(Open(s), Open(s'), t);
    SetSizes(AtWork(s), AtWork(s'), t);
  }

  lemma PlanGoesOn(ended: seq<Role>, todo: seq<Role>)
    ensures ended + [] == ended
    ensures todo != [] ==> ended + todo == ended + [todo[0]] + todo[1..]
  {
  }

  /** The steps around an agent run. */
  predicate AroundAgent(a: Action)
  {
    a.TakeAgent? || a.AgentSucceeds? || a.AgentFails? || a.Leave? || a.LeaveFails?
  }

  lemma AgentOnPlan(s: State, t: TaskId, a: Action)
    requires Enabled(s, t, a) && OnPlan(s.tasks[t]) && AroundAgent(a)
    ensures OnPlan(Apply(s, t, a).tasks[t])
  {
    PlanGoesOn(s.tasks[t].ended, s.tasks[t].pc.todo);
  }

  lemma OtherOnPlan(s: State, t: TaskId, a: Action)
    requires Enabled(s, t, a) && OnPlan(s.tasks[t]) && !AroundAgent(a)
    ensures OnPlan(Apply(s, t, a).tasks[t])
  {
    if a.NextStep? || a.EnterFails? {
      PlanGoesOn(s.tasks[t].ended, s.tasks[t].pc.todo);
    }
  }

  lemma StepOnPlan(s: State, t: TaskId, a: Action)
    requires Enabled(s, t, a) && OnPlan(s.tasks[t])
    ensures OnPlan(Apply(s, t, a).tasks[t])
  {
    if AroundAgent(a) {
      AgentOnPlan(s, t, a);
    } else {
      OtherOnPlan(s, t, a);
    }
  }

  /** What the step does to the lock of the task's branch. */
  lemma StepLock(s: State, t: TaskId, a: Action)
    requires Locking(s) && Enabled(s, t, a)
    ensures
      var s', me := Apply(s, t, a), s.tasks[t];
      if !HasLock(me.pc) && HasLock(s'.tasks[t].pc) then me.issue !in s.locks && s'.locks == s.locks + {me.issue}
      else if HasLock(me.pc) && !HasLock(s'.tasks[t].pc) then s'.locks == s.locks - {me.issue}
      else s'.locks == s.locks
  {
  }

  lemma HoldersElsewhere(s: State, s': State, t: TaskId)
    requires t in s.tasks && t in s'.tasks && s'.tasks == s.tasks[t := s'.tasks[t]]
    ensures forall u :: u != t ==> (Holds(s', u) <==> Holds(s, u)) && (Holds(s, u) ==> s'.tasks[u] == s.tasks[u])
  {
  }

  lemma LockKept(s: State, s': State, t: TaskId)
    requires Locking(s) && t in s.tasks && t in s'.tasks && s'.tasks == s.tasks[t := s'.tasks[t]]
    requires s'.tasks[t].issue == s.tasks[t].issue && s'.locks == s.locks
    requires Holds(s, t) == Holds(s', t)
    ensures Locking(s')
  {
    HoldersElsewhere(s, s', t);
    forall i | i in s'.locks
      ensures exists u :: Holds(s', u) && s'.tasks[u].issue == i
    {
      var u :| Holds(s, u) && s.tasks[u].issue == i;
      assert Holds(s', u);
    }
  }

  lemma LockTaken(s: State, s': State, t: TaskId)
    requires Locking(s) && t in s.tasks && t in s'.tasks && s'.tasks == s.tasks[t := s'.tasks[t]]
    requires s'.tasks[t].issue == s.tasks[t].issue && s.tasks[t].issue !in s.locks && s'.locks == s.locks + {s.tasks[t].issue}
    requires !Holds(s, t) && Holds(s', t)
    ensures Locking(s')
  {
    HoldersElsewhere(s, s', t);
    forall i | i in s'.locks
      ensures exists u :: Holds(s', u) && s'.tasks[u].issue == i
    {
      if i in s.locks {
        var u :| Holds(s, u) && s.tasks[u].issue == i;
        assert Holds(s', u);
      }
    }
  }

  lemma LockReleased(s: State, s': State, t: TaskId)
    requires Locking(s) && t in s.tasks && t in s'.tasks && s'.tasks == s.tasks[t := s'.tasks[t]]
    requires s'.tasks[t].issue == s.tasks[t].issue && s'.locks == s.locks - {s.tasks[t].issue}
    requires Holds(s, t) && !Holds(s', t)
    ensures Locking(s')
  {
    HoldersElsewhere(s, s', t);
    forall i | i in s'.locks
      ensures exists u :: Holds(s', u) && s'.tasks[u].issue == i
    {
      var u :| Holds(s, u) && s.tasks[u].issue == i;
      assert Holds(s', u);
    }
  }

  lemma StepLocking(s: State, t: TaskId, a: Action)
    requires Locking(s) && Enabled(s, t, a)
    ensures Locking(Apply(s, t, a))
  {
    var s' := Apply(s, t, a);
    StepFrame(s, t, a);
    StepLock(s, t, a);
    if Holds(s, t) == Holds(s', t) {
      LockKept(s, s', t);
    } else if Holds(s', t) {
      LockTaken(s, s', t);
    } else {
      LockReleased(s, s', t);
    }
  }

  lemma StepInv(s: State, t: TaskId, a: Action)
    requires Inv(s) && Enabled(s, t, a)
    ensures Inv(Apply(s, t, a))
  {
    StepFrame(s, t, a);
    StepPermits(s, t, a);
    StepLocking(s, t, a);
    StepOnPlan(s, t, a);
  }

  lemma {:induction false} BehaviorInv(b: seq<State>, moves: seq<Move>, k: nat)
    requires IsBehavior(b, moves) && k <= |moves|
    ensures Inv(b[k])
  {
    if k == 0 {
      InitInv(b[0]);
    } else {
      BehaviorInv(b, moves, k - 1);
      StepInv(b[k - 1], moves[k - 1].task, moves[k - 1].action);
    }
  }

  // ---------- what every run keeps ----------

  /** Never more agents than allowed, never more worktrees than one beyond that, never two agents on one branch. */
  lemma NeverTooMany(b: seq<State>, moves: seq<Move>, k: nat)
    requires IsBehavior(b, moves) && k <= |moves|
    ensures |AtWork(b[k])| <= b[0].maxParallel && |Open(b[k])| <= b[0].maxParallel + 1
    ensures forall t, u :: t in AtWork(b[k]) && u in AtWork(b[k]) && b[k].tasks[t].issue == b[k].tasks[u].issue ==> t == u
  {
    BehaviorInv(b, moves, k);
    BehaviorFrame(b, moves, k);
    assert forall t :: t in AtWork(b[k]) ==> Holds(b[k], t);
  }

  lemma {:induction false} BehaviorFrame(b: seq<State>, moves: seq<Move>, k: nat)
    requires IsBehavior(b, moves) && k <= |moves|
    ensures b[k].tasks.Keys == b[0].tasks.Keys && b[k].maxParallel == b[0].maxParallel
  {
    if k != 0 {
      BehaviorFrame(b, moves, k - 1);
      StepFrame(b[k - 1], moves[k - 1].task, moves[k - 1].action);
    }
  }

  /** A reviewer starts only when its issue's implementer step has succeeded or is not in the plan. */
  lemma ReviewComesLast(b: seq<State>, moves: seq<Move>, k: nat, t: TaskId)
    requires IsBehavior(b, moves) && k <= |moves| && t in b[k].tasks && Reviewer in b[k].tasks[t].started
    ensures b[k].tasks[t].plan.Some?
    ensures Implementer in b[k].tasks[t].ended || !b[k].tasks[t].plan.value.implement.Run?
  {
    BehaviorInv(b, moves, k);
    ReviewerIsLast(b[k].tasks[t]);
  }

  lemma ReviewerIsLast(me: Task)
    requires OnPlan(me) && Reviewer in me.started
    ensures me.plan.Some? && (Implementer in me.ended || !me.plan.value.implement.Run?)
  {
    StartedIsPlanned(me);
    var plan := me.plan.value;
    var i :| 0 <= i < |me.started| && me.started[i] == Reviewer;
    if plan.implement.Run? {
      assert Todo(plan)[0] == Implementer && |Todo(plan)| <= 2;
      assert i == 1 && me.ended[0] == me.started[0];
    }
  }

  lemma StartedIsPlanned(me: Task)
    requires OnPlan(me) && me.started != []
    ensures me.plan.Some? && me.started <= Todo(me.plan.value)
    ensures me.ended <= me.started && |me.started| <= |me.ended| + 1
  {
  }

  // ---------- causes ----------

  /** Moves that are refusals, errors and failures. */
  predicate IsFailure(a: Action)
  {
    a.Reject? || a.PlanFails? || a.EnterFails? || a.AgentFails? || a.LeaveFails?
  }

  predicate HasFailed(pc: Pc)
  {
    (pc.Leaving? && pc.failed) || (pc.Releasing? && pc.failed) || pc == Finished(Failed)
  }

  lemma FailsByFailure(s: State, t: TaskId, a: Action, u: TaskId)
    requires Enabled(s, t, a) && u in s.tasks
    ensures u in Apply(s, t, a).tasks
    ensures HasFailed(Apply(s, t, a).tasks[u].pc) ==> HasFailed(s.tasks[u].pc) || (t == u && IsFailure(a))
  {
    StepFrame(s, t, a);
  }

  /** A task ends as failed only if a move of its own was a refusal, an error or a failure. */
  lemma {:induction false} FailedHasCause(b: seq<State>, moves: seq<Move>, k: nat, t: TaskId)
    requires IsBehavior(b, moves) && k <= |moves| && t in b[k].tasks && HasFailed(b[k].tasks[t].pc)
    ensures exists j :: 0 <= j < k && moves[j].task == t && IsFailure(moves[j].action)
  {
    if k > 0 {
      StepFrame(b[k - 1], moves[k - 1].task, moves[k - 1].action);
      FailsByFailure(b[k - 1], moves[k - 1].task, moves[k - 1].action, t);
      if HasFailed(b[k - 1].tasks[t].pc) {
        FailedHasCause(b, moves, k - 1, t);
      }
    }
  }

  /** Another task held the branch when this one asked for its lock. */
  ghost predicate TakenAt(b: seq<State>, moves: seq<Move>, j: nat, t: TaskId)
    requires |b| == |moves| + 1 && j < |moves|
  {
    moves[j] == Move(t, Lock) && HeldByOther(b[j], t)
  }

  ghost predicate HeldByOther(s: State, t: TaskId)
  {
    t in s.tasks && exists u :: u != t && Holds(s, u) && s.tasks[u].issue == s.tasks[t].issue
  }

  lemma CollidesWithHolder(s: State, t: TaskId, a: Action, u: TaskId)
    requires Inv(s) && Enabled(s, t, a) && u in s.tasks
    ensures u in Apply(s, t, a).tasks
    ensures Apply(s, t, a).tasks[u].pc == Finished(Collided) ==>
              || s.tasks[u].pc == Finished(Collided)
              || (t == u && a == Lock && HeldByOther(s, t))
  {
    StepFrame(s, t, a);
    if Apply(s, t, a).tasks[u].pc == Finished(Collided) && s.tasks[u].pc != Finished(Collided) {
      var v :| Holds(s, v) && s.tasks[v].issue == s.tasks[t].issue;
      assert !Holds(s, t);
    }
  }

  /** A task ends as collided only if another one held its branch when it asked. */
  lemma {:induction false} CollidedHasCause(b: seq<State>, moves: seq<Move>, k: nat, t: TaskId) returns (j: nat)
    requires IsBehavior(b, moves) && k <= |moves| && t in b[k].tasks && b[k].tasks[t].pc == Finished(Collided)
    ensures j < k && TakenAt(b, moves, j, t)
  {
    assert k > 0;
    j := k - 1;
    BehaviorInv(b, moves, j);
    StepFrame(b[j], moves[j].task, moves[j].action);
    CollidesWithHolder(b[j], moves[j].task, moves[j].action, t);
    if b[j].tasks[t].pc == Finished(Collided) {
      j := CollidedHasCause(b, moves, j, t);
    }
  }

  /** An agent in this role succeeded for the issue, and its work was committed. */
  ghost predicate CommittedAt(b: seq<State>, moves: seq<Move>, j: nat, issue: nat, role: Role)
    requires |b| == |moves| + 1 && j < |moves|
  {
    && moves[j].action == AgentSucceeds(true) && moves[j].task in b[j].tasks && b[j].tasks[moves[j].task].issue == issue
    && b[j].tasks[moves[j].task].pc.Running? && b[j].tasks[moves[j].task].pc.todo != []
    && b[j].tasks[moves[j].task].pc.todo[0] == role
  }

  function MarksOf(s: State, role: Role): set<nat>
  {
    if role.Implementer? then s.implemented else s.reviewed
  }

  lemma MarkMade(s: State, t: TaskId, a: Action, issue: nat, role: Role)
    requires Enabled(s, t, a)
    ensures issue in MarksOf(Apply(s, t, a), role) <==>
            issue in MarksOf(s, role) || (a == AgentSucceeds(true) && s.tasks[t].issue == issue && s.tasks[t].pc.todo[0] == role)
  {
  }

  /** A stage is marked done exactly for the issues it was marked for at the start and those for which an agent of that
      role succeeded and committed. */
  lemma {:induction false} MarksAreCommits(b: seq<State>, moves: seq<Move>, k: nat, issue: nat, role: Role)
    requires IsBehavior(b, moves) && k <= |moves|
    ensures issue in MarksOf(b[k], role) <==> issue in MarksOf(b[0], role) || exists j :: 0 <= j < k && CommittedAt(b, moves, j, issue, role)
  {
    if k > 0 {
      MarksAreCommits(b, moves, k - 1, issue, role);
      MarkMade(b[k - 1], moves[k - 1].task, moves[k - 1].action, issue, role);
      assert b[k] == Apply(b[k - 1], moves[k - 1].task, moves[k - 1].action);
      assert issue in MarksOf(b[k], role) <==> issue in MarksOf(b[k - 1], role) || CommittedAt(b, moves, k - 1, issue, role);
    }
  }

  ghost predicate SucceededAt(b: seq<State>, moves: seq<Move>, j: nat, t: TaskId, role: Role)
    requires |b| == |moves| + 1 && j < |moves|
  {
    && moves[j].task == t && moves[j].action.AgentSucceeds? && t in b[j].tasks
    && b[j].tasks[t].pc.Running? && b[j].tasks[t].pc.todo != [] && b[j].tasks[t].pc.todo[0] == role
  }

  ghost predicate StartedAt(b: seq<State>, moves: seq<Move>, j: nat, t: TaskId, role: Role)
    requires |b| == |moves| + 1 && j < |moves|
  {
    && moves[j] == Move(t, TakeAgent) && t in b[j].tasks
    && b[j].tasks[t].pc.WantAgent? && b[j].tasks[t].pc.todo != [] && b[j].tasks[t].pc.todo[0] == role
  }

  lemma StepHistory(s: State, t: TaskId, a: Action, u: TaskId, role: Role)
    requires Enabled(s, t, a) && u in s.tasks
    ensures
      var me, me' := s.tasks[u], Apply(s, t, a).tasks[u];
      && (role in me'.ended <==> role in me.ended || (t == u && a.AgentSucceeds? && me.pc.todo[0] == role))
      && (role in me'.started <==> role in me.started || (t == u && a.TakeAgent? && me.pc.todo[0] == role))
  {
    StepFrame(s, t, a);
  }

  /** The roles on record as started and ended are those whose agent was started, and succeeded. */
  lemma HistoryIsMoves(b: seq<State>, moves: seq<Move>, k: nat, t: TaskId, role: Role)
    requires IsBehavior(b, moves) && k <= |moves| && t in b[k].tasks
    ensures role in b[k].tasks[t].ended <==> exists j :: 0 <= j < k && SucceededAt(b, moves, j, t, role)
    ensures role in b[k].tasks[t].started <==> exists j :: 0 <= j < k && StartedAt(b, moves, j, t, role)
  {
    EndedAreMoves(b, moves, k, t, role);
    StartedAreMoves(b, moves, k, t, role);
  }

  lemma {:induction false} EndedAreMoves(b: seq<State>, moves: seq<Move>, k: nat, t: TaskId, role: Role)
    requires IsBehavior(b, moves) && k <= |moves| && t in b[k].tasks
    ensures role in b[k].tasks[t].ended <==> exists j :: 0 <= j < k && SucceededAt(b, moves, j, t, role)
  {
    if k > 0 {
      StepFrame(b[k - 1], moves[k - 1].task, moves[k - 1].action);
      EndedAreMoves(b, moves, k - 1, t, role);
      StepHistory(b[k - 1], moves[k - 1].task, moves[k - 1].action, t, role);
      assert role in b[k].tasks[t].ended <==> role in b[k - 1].tasks[t].ended || SucceededAt(b, moves, k - 1, t, role);
    }
  }

  lemma {:induction false} StartedAreMoves(b: seq<State>, moves: seq<Move>, k: nat, t: TaskId, role: Role)
    requires IsBehavior(b, moves) && k <= |moves| && t in b[k].tasks
    ensures role in b[k].tasks[t].started <==> exists j :: 0 <= j < k && StartedAt(b, moves, j, t, role)
  {
    if k > 0 {
      StepFrame(b[k - 1], moves[k - 1].task, moves[k - 1].action);
      StartedAreMoves(b, moves, k - 1, t, role);
      StepHistory(b[k - 1], moves[k - 1].task, moves[k - 1].action, t, role);
      assert role in b[k].tasks[t].started <==> role in b[k - 1].tasks[t].started || StartedAt(b, moves, k - 1, t, role);
    }
  }

  // ---------- what a completed issue has been through ----------

  function StepOf(p: Plan, role: Role): Step
  {
    if role.Implementer? then p.implement else p.review
  }

  /** The role's stage was marked done when the plan was made; a done review stands for both. */
  predicate MarkedDone(p: Plan, role: Role)
  {
    p.complete || (role.Implementer? && p.implemented)
  }

  /** The worktree was rejected for a step that was still to be done. */
  predicate Dropped(p: Plan, role: Role)
  {
    StepOf(p, role).SetupFailure? && !MarkedDone(p, role)
  }

  /** The role's step has succeeded in this run, or its stage was done before. */
  predicate Settled(me: Task, role: Role)
  {
    role in me.ended || (me.plan.Some? && MarkedDone(me.plan.value, role))
  }

  /** The plan was made by an earlier move, from the marks of that moment. */
  ghost predicate PlannedBefore(b: seq<State>, moves: seq<Move>, k: nat, t: TaskId)
    requires |b| == |moves| + 1 && k <= |moves| && t in b[k].tasks && b[k].tasks[t].plan.Some?
  {
    exists j :: 0 <= j < k && PlannedAt(b, moves, k, t, j)
  }

  ghost predicate PlannedAt(b: seq<State>, moves: seq<Move>, k: nat, t: TaskId, j: nat)
    requires |b| == |moves| + 1 && j < k <= |moves| && t in b[k].tasks && b[k].tasks[t].plan.Some?
  {
    && moves[j].task == t && moves[j].action.MakePlan?
    && IsPlanOf(b[k].tasks[t].plan.value, b[j], b[k].tasks[t].issue, moves[j].action)
  }

  /** The marks of the state, the rejections of the move, and a run for every role that is neither done nor rejected. */
  predicate IsPlanOf(p: Plan, s: State, issue: nat, a: Action)
    requires a.MakePlan?
  {
    && (p.implemented <==> issue in s.implemented) && (p.complete <==> issue in s.reviewed)
    && (p.implement.SetupFailure? <==> a.setupFailsImplementer) && (p.review.SetupFailure? <==> a.setupFailsReviewer)
    && (p.implement.Skip? <==> !a.setupFailsImplementer && (issue in s.implemented || issue in s.reviewed))
    && (p.review.Skip? <==> !a.setupFailsReviewer && issue in s.reviewed)
  }

  lemma PlanStays(s: State, u: TaskId, a: Action, t: TaskId)
    requires Enabled(s, u, a) && t in s.tasks && !(t == u && a.MakePlan?)
    ensures
      var s' := Apply(s, u, a);
      t in s'.tasks && s'.tasks[t].plan == s.tasks[t].plan && s'.tasks[t].issue == s.tasks[t].issue
  {
  }

  lemma PlanMade(s: State, t: TaskId, a: Action)
    requires Enabled(s, t, a) && a.MakePlan?
    ensures
      var me := Apply(s, t, a).tasks[t];
      me.plan.Some? && IsPlanOf(me.plan.value, s, me.issue, a)
  {
  }

  lemma {:induction false} PlanIsFromMarks(b: seq<State>, moves: seq<Move>, k: nat, t: TaskId)
    requires IsBehavior(b, moves) && k <= |moves| && t in b[k].tasks && b[k].tasks[t].plan.Some?
    ensures PlannedBefore(b, moves, k, t)
  {
    if k > 0 {
      var before, move := b[k - 1], moves[k - 1];
      StepFrame(before, move.task, move.action);
      if move.task == t && move.action.MakePlan? {
        PlanMade(before, t, move.action);
        assert PlannedAt(b, moves, k, t, k - 1);
      } else {
        PlanStays(before, move.task, move.action, t);
        PlanIsFromMarks(b, moves, k - 1, t);
        var j :| 0 <= j < k - 1 && PlannedAt(b, moves, k - 1, t, j);
        assert PlannedAt(b, moves, k, t, j);
      }
    }
  }

  /** A completed issue has gone through its whole plan. Each of its two steps has succeeded or was marked done before,
      if and only if the worktree was not rejected for a step that was still to be done. */
  lemma CompletedWentThrough(b: seq<State>, moves: seq<Move>, k: nat, t: TaskId, role: Role)
    requires IsBehavior(b, moves) && k <= |moves| && t in b[k].tasks && b[k].tasks[t].pc == Finished(Completed)
    ensures b[k].tasks[t].plan.Some? && b[k].tasks[t].ended == Todo(b[k].tasks[t].plan.value)
    ensures Settled(b[k].tasks[t], role) <==> !Dropped(b[k].tasks[t].plan.value, role)
    ensures PlannedBefore(b, moves, k, t)
  {
    BehaviorInv(b, moves, k);
    PlanIsFromMarks(b, moves, k, t);
    var plan := b[k].tasks[t].plan.value;
    assert OnPlan(b[k].tasks[t]);
    assert role in Todo(plan) <==> !plan.complete && StepOf(plan, role).Run?;
  }

  /** An issue whose worktree cannot be mounted counts as completed, although no agent was started and nothing was reviewed. */
  lemma SetupFailureCounted(issue: nat) returns (b: seq<State>, moves: seq<Move>)
    ensures IsBehavior(b, moves) && 0 in b[|moves|].tasks
    ensures b[|moves|].tasks[0].pc == Finished(Completed) && b[|moves|].tasks[0].started == []
    ensures issue !in b[|moves|].reviewed
  {
    var s0 := State(1, map[0 := Task(issue, Begin, None, [], [])], 2, 1, {}, {}, {});
    var s1 := Apply(s0, 0, Lock);
    var s2 := Apply(s1, 0, MakePlan(true, true));
    var s3 := Apply(s2, 0, NextStep);
    var s4 := Apply(s3, 0, Release);
    b := [s0, s1, s2, s3, s4];
    moves := [Move(0, Lock), Move(0, MakePlan(true, true)), Move(0, NextStep), Move(0, Release)];
  }

  /** One more move of task 0. */
  lemma Go(b: seq<State>, moves: seq<Move>, a: Action) returns (b': seq<State>, moves': seq<Move>)
    requires IsBehavior(b, moves) && Enabled(b[|moves|], 0, a)
    ensures IsBehavior(b', moves') && b'[|moves'|] == Apply(b[|moves|], 0, a)
  {
    b', moves' := b + [Apply(b[|moves|], 0, a)], moves + [Move(0, a)];
  }

  /** The state of a run with one task, by what changes in it. */
  function Alone(issue: nat, pc: Pc, plan: Option<Plan>, started: seq<Role>, ended: seq<Role>, worktrees: nat, agents: nat,
                 locked: bool, reviewed: bool): State
  {
    State(1, map[0 := Task(issue, pc, plan, started, ended)], worktrees, agents,
          if locked then {issue} else {}, {}, if reviewed then {issue} else {})
  }

  const HalfPlan := Plan(false, false, SetupFailure, Run)

  /** The worktree is rejected for the implementer only, and the reviewer's worktree is entered. */
  lemma ReviewerEntersAlone(issue: nat) returns (b: seq<State>, moves: seq<Move>)
    ensures IsBehavior(b, moves) && b[|moves|] == Alone(issue, WantAgent([Reviewer]), Some(HalfPlan), [], [], 1, 1, true, false)
  {
    b, moves := [Alone(issue, Begin, None, [], [], 2, 1, false, false)], [];
    b, moves := Go(b, moves, Lock);
    assert b[|moves|] == Alone(issue, Planning, None, [], [], 2, 1, true, false);
    b, moves := Go(b, moves, MakePlan(true, false));
    assert Todo(HalfPlan) == [Reviewer];
    b, moves := Go(b, moves, NextStep);
    b, moves := Go(b, moves, TakeWorktree);
    b, moves := Go(b, moves, Enter);
  }

  /** The review succeeds. */
  lemma ReviewerEndsAlone(issue: nat) returns (b: seq<State>, moves: seq<Move>)
    ensures IsBehavior(b, moves) && b[|moves|] == Alone(issue, Ready([]), Some(HalfPlan), [Reviewer], [Reviewer], 2, 1, true, true)
  {
    b, moves := ReviewerEntersAlone(issue);
    b, moves := Go(b, moves, TakeAgent);
    assert b[|moves|].tasks[0].started == [Reviewer];
    assert b[|moves|] == Alone(issue, Running([Reviewer]), Some(HalfPlan), [Reviewer], [], 1, 0, true, false);
    b, moves := Go(b, moves, AgentSucceeds(true));
    assert b[|moves|].reviewed == {issue} && b[|moves|].tasks[0].ended == [Reviewer];
    assert b[|moves|] == Alone(issue, Leaving([Reviewer], false), Some(HalfPlan), [Reviewer], [Reviewer], 1, 1, true, true);
    assert [Reviewer][1..] == [];
    b, moves := Go(b, moves, Leave);
  }

  /** That issue counts as completed too: reviewed and never implemented. */
  lemma ReviewedWithoutImplementation(issue: nat) returns (b: seq<State>, moves: seq<Move>)
    ensures IsBehavior(b, moves) && 0 in b[|moves|].tasks && b[|moves|].tasks[0].pc == Finished(Completed)
    ensures b[|moves|].tasks[0].started == [Reviewer] && !Settled(b[|moves|].tasks[0], Implementer)
    ensures issue !in b[|moves|].implemented && issue in b[|moves|].reviewed
  {
    b, moves := ReviewerEndsAlone(issue);
    b, moves := Go(b, moves, NextStep);
    b, moves := Go(b, moves, Release);
  }

  /** When all have finished, every permit and every branch lock is back, whatever failed. */
  lemma EverythingIsReturned(b: seq<State>, moves: seq<Move>)
    requires IsBehavior(b, moves) && AllFinished(b[|moves|])
    ensures b[|moves|].worktrees == b[0].maxParallel + 1 && b[|moves|].agents == b[0].maxParallel && b[|moves|].locks == {}
  {
    var s := b[|moves|];
    BehaviorInv(b, moves, |moves|);
    BehaviorFrame(b, moves, |moves|);
    assert Open(s) == {} && AtWork(s) == {};
    assert forall t :: !Holds(s, t);
  }

  // ---------- every run comes to an end ----------

  function Rank(me: Task): nat
  {
    match me.pc
    case Begin => 20
    case Planning => 19
    case Ready(todo) => 8 * |todo| + 2
    case WantWorktree(todo) => 8 * |todo| + 1
    case Entering(todo) => 8 * |todo|
    case WantAgent(todo) => if todo == [] then 7 else 8 * |todo| - 1
    case Running(todo) => if todo == [] then 6 else 8 * |todo| - 2
    case Leaving(todo, _) => if todo == [] then 5 else 8 * |todo| - 3
    case Releasing(_) => 1
    case Finished(_) => 0
  }

  ghost function Fuel(s: State): nat
  {
    Sum(s.tasks.Keys, s.tasks, (me: Task) => Rank(me))
  }

  lemma StepRank(s: State, t: TaskId, a: Action)
    requires Enabled(s, t, a) && OnPlan(s.tasks[t])
    ensures Rank(Apply(s, t, a).tasks[t]) < Rank(s.tasks[t])
  {
    if AroundAgent(a) {
      AgentRank(s, t, a);
    } else {
      OtherRank(s, t, a);
    }
  }

  lemma AgentRank(s: State, t: TaskId, a: Action)
    requires Enabled(s, t, a) && OnPlan(s.tasks[t]) && AroundAgent(a)
    ensures Rank(Apply(s, t, a).tasks[t]) < Rank(s.tasks[t])
  {
    PhaseRank(s, t, a, s.tasks[t].pc);
  }

  /** One phase on, or one role step less to do. */
  lemma PhaseRank(s: State, t: TaskId, a: Action, pc: Pc)
    requires Enabled(s, t, a) && s.tasks[t].pc == pc && AroundAgent(a) && ((pc.Running? || pc.Leaving?) ==> pc.todo != [])
    ensures Rank(Apply(s, t, a).tasks[t]) < Rank(s.tasks[t])
  {
  }

  lemma OtherRank(s: State, t: TaskId, a: Action)
    requires Enabled(s, t, a) && OnPlan(s.tasks[t]) && !AroundAgent(a)
    ensures Rank(Apply(s, t, a).tasks[t]) < Rank(s.tasks[t])
  {
  }

  lemma StepBurns(s: State, t: TaskId, a: Action)
    requires Inv(s) && Enabled(s, t, a)
    ensures Fuel(Apply(s, t, a)) < Fuel(s)
  {
    var s' := Apply(s, t, a);
    StepFrame(s, t, a);
    StepRank(s, t, a);
    SumUpdate(s.tasks, (me: Task) => Rank(me), t, s'.tasks[t]);
  }

  lemma BehaviorBurns(b: seq<State>, moves: seq<Move>, k: nat)
    requires IsBehavior(b, moves) && k < |moves|
    ensures Fuel(b[k + 1]) < Fuel(b[k])
  {
    BehaviorInv(b, moves, k);
    StepBurns(b[k], moves[k].task, moves[k].action);
  }

  /** No run is longer than twenty steps a task, failures included. */
  lemma RunsAreBounded(b: seq<State>, moves: seq<Move>)
    requires IsBehavior(b, moves)
    ensures |moves| <= 20 * |b[0].tasks|
  {
    var fuel := seq(|b|, i requires 0 <= i < |b| => Fuel(b[i]));
    forall i | 0 <= i < |fuel| - 1
      ensures fuel[i + 1] < fuel[i]
    {
      BehaviorBurns(b, moves, i);
    }
    Descent(fuel, |moves|);
    SumIsAtMost(b[0].tasks.Keys, b[0].tasks, (me: Task) => Rank(me));
    assert |b[0].tasks.Keys| == |b[0].tasks|;
  }

  lemma {:induction false} SumIsAtMost(keys: set<TaskId>, m: map<TaskId, Task>, weight: Task -> nat)
    requires keys <= m.Keys && forall k :: k in keys ==> weight(m[k]) <= 20
    ensures Sum(keys, m, weight) <= 20 * |keys|
    decreases keys
  {
    if keys != {} {
      var k :| k in keys;
      SumTakes(keys, m, weight, k);
      SumIsAtMost(keys - {k}, m, weight);
      assert |keys| == |keys - {k}| + 1;
    }
  }

  /** The step a task can take that waits for no permit and is no failure. */
  function OwnStep(pc: Pc): Action
  {
    match pc
    case Planning => MakePlan(false, false)
    case Ready(_) => NextStep
    case Entering(_) => Enter
    case Running(_) => AgentSucceeds(true)
    case Leaving(_, _) => Leave
    case Releasing(_) => Release
    case _ => Lock
  }

  predicate Waits(pc: Pc) { pc.WantWorktree? || pc.WantAgent? }

  lemma OwnStepEnabled(s: State, t: TaskId)
    requires t in s.tasks && !s.tasks[t].pc.Finished? && !Waits(s.tasks[t].pc) && OnPlan(s.tasks[t])
    ensures Enabled(s, t, OwnStep(s.tasks[t].pc))
  {
  }

  lemma SomePermitIsFree(s: State, t: TaskId)
    requires Inv(s) && t in s.tasks && Waits(s.tasks[t].pc)
    requires forall u :: u in s.tasks ==> s.tasks[u].pc.Finished? || Waits(s.tasks[u].pc)
    ensures s.agents > 0
    ensures (forall u :: u in s.tasks ==> !s.tasks[u].pc.WantAgent?) ==> s.worktrees > 0
  {
    assert AtWork(s) == {};
    if forall u :: u in s.tasks ==> !s.tasks[u].pc.WantAgent? {
      assert Open(s) == {};
    }
  }

  /** As long as not all have finished, some task can take a step that is no failure: the two semaphores do not block
      each other. */
  lemma NobodyIsStuck(b: seq<State>, moves: seq<Move>)
    requires IsBehavior(b, moves) && !AllFinished(b[|moves|])
    ensures exists t, a :: Enabled(b[|moves|], t, a) && !IsFailure(a)
  {
    BehaviorInv(b, moves, |moves|);
    var t, a := NextMove(b[|moves|]);
  }

  lemma NextMove(s: State) returns (t: TaskId, a: Action)
    requires Inv(s) && !AllFinished(s)
    ensures Enabled(s, t, a) && !IsFailure(a)
  {
    if u :| Acts(s, u) {
      OwnStepEnabled(s, u);
      t, a := u, OwnStep(s.tasks[u].pc);
    } else {
      var w :| w in s.tasks && !s.tasks[w].pc.Finished?;
      assert !Acts(s, w);
      t, a := WaitingMove(s, w);
    }
  }

  /** The task can go on without waiting for a permit. */
  predicate Acts(s: State, t: TaskId)
  {
    t in s.tasks && !s.tasks[t].pc.Finished? && !Waits(s.tasks[t].pc)
  }

  lemma WaitingMove(s: State, t: TaskId) returns (u: TaskId, a: Action)
    requires Inv(s) && t in s.tasks && Waits(s.tasks[t].pc)
    requires forall v :: !Acts(s, v)
    ensures Enabled(s, u, a) && !IsFailure(a)
  {
    assert forall v :: v in s.tasks ==> s.tasks[v].pc.Finished? || Waits(s.tasks[v].pc) || Acts(s, v);
    SomePermitIsFree(s, t);
    if v :| v in s.tasks && s.tasks[v].pc.WantAgent? {
      assert OnPlan(s.tasks[v]);
      u, a := v, TakeAgent;
    } else {
      u, a := t, TakeWorktree;
    }
  }
}
