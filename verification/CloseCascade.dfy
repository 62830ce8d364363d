/** Closing issues from many threads at once.  Every worker closes its issue, asks for the parent,
    lists the parent's sub-issues, and goes on with the parent when none is open.  One service
    object remembers which issues it closed and which parents a cascade already entered.
    GitHub may answer a listing with stale data: an issue this service closed can still be listed
    as open; that is what the memory of recently closed issues is for.  An issue closed before the batch
    is listed truly once that memory has dropped it. */
module CloseCascade {
  import opened MapSum

  type Issue = nat
  type WorkerId = nat

  datatype Phase =
    | Closing(n: Issue)                                                    // about to send the close request
    | Noting(n: Issue)                                                     // closed, not yet remembered
    | Asking(n: Issue)                                                     // about to ask for the parent
    | Reading(n: Issue, p: Issue, todo: set<Issue>, open: set<Issue>)      // sub-issues of p not yet / read as open
    | Filtering(n: Issue, p: Issue, todo: set<Issue>, found: bool)         // dropping recently closed ones
    | Guarding(n: Issue, p: Issue)                                         // none open: enter p unless entered already
    | Unmarking(p: Issue)                                                  // closing p failed
    | Finished

  datatype Worker = Worker(phase: Phase, cascading: bool)

  /** `parent`, `wasClosed` and `wasAttempted` never change: the issue forest (any graph will do) and
      what was closed or entered before the batch.  `noted` are the issues this batch closed and
      remembered, `cascades` counts entries into parents and `failedCascades` the failed closes of entered
      parents.  The last three are the issues for which a request failed: to close the issue, to look up
      its parent, to list that parent's sub-issues. */
  datatype State = State(
    parent: map<Issue, Issue>,
    wasClosed: set<Issue>,
    wasAttempted: set<Issue>,
    closed: set<Issue>,
    recentlyClosed: set<Issue>,
    attempted: set<Issue>,
    workers: map<WorkerId, Worker>,
    noted: set<Issue>,
    cascades: multiset<Issue>,
    failedCascades: multiset<Issue>,
    unclosed: set<Issue>,
    unasked: set<Issue>,
    unlisted: set<Issue>)

  datatype Action =
    | CloseOk
    | CloseFails(applied: bool)
    | Note
    | Ask
    | RequestFails
    | Read(c: Issue, seenOpen: bool)
    | BeginFilter
    | Filter(c: Issue)
    | Decide
    | Guard
    | Unmark

  function Children(parent: map<Issue, Issue>, p: Issue): set<Issue>
  {
    set c | c in parent && parent[c] == p
  }

  ghost predicate Enabled(s: State, w: WorkerId, a: Action)
  {
    w in s.workers &&
    var ph := s.workers[w].phase;
    match a
    case CloseOk => ph.Closing?
    case CloseFails(_) => ph.Closing?
    case Note => ph.Noting?
    case Ask => ph.Asking?
    case RequestFails => ph.Asking? || ph.Reading?
    case Read(c, seenOpen) =>
      ph.Reading? && c in ph.todo && (c !in s.closed ==> seenOpen) && (c in s.wasClosed && c !in s.recentlyClosed ==> !seenOpen)
    case BeginFilter => ph.Reading? && ph.todo == {}
    case Filter(c) => ph.Filtering? && c in ph.todo
    case Decide => ph.Filtering? && ph.todo == {}
    case Guard => ph.Guarding?
    case Unmark => ph.Unmarking?
  }

  ghost function Apply(s: State, w: WorkerId, a: Action): State
    requires Enabled(s, w, a)
  {
    var me := s.workers[w];
    var ph := me.phase;
    match a
    case CloseOk =>
      s.(closed := s.closed + {ph.n}, workers := s.workers[w := me.(phase := Noting(ph.n))])
    case CloseFails(applied) =>
      s.(closed := if applied then s.closed + {ph.n} else s.closed, unclosed := s.unclosed + {ph.n},
         failedCascades := if me.cascading then s.failedCascades + multiset{ph.n} else s.failedCascades,
         workers := s.workers[w := me.(phase := if me.cascading then Unmarking(ph.n) else Finished)])
    case Note =>
      s.(recentlyClosed := s.recentlyClosed + {ph.n}, noted := s.noted + {ph.n},
         workers := s.workers[w := me.(phase := Asking(ph.n))])
    case Ask =>
      s.(workers := s.workers[w := me.(phase :=
        if ph.n in s.parent
        then Reading(ph.n, s.parent[ph.n], Children(s.parent, s.parent[ph.n]), {})
        else Finished)])
    case RequestFails =>
      s.(unasked := if ph.Asking? then s.unasked + {ph.n} else s.unasked,
         unlisted := if ph.Reading? then s.unlisted + {ph.n} else s.unlisted,
         workers := s.workers[w := me.(phase := Finished)])
    case Read(c, seenOpen) =>
      s.(workers := s.workers[w := me.(phase :=
        Reading(ph.n, ph.p, ph.todo - {c}, if seenOpen then ph.open + {c} else ph.open))])
    case BeginFilter =>
      s.(workers := s.workers[w := me.(phase := Filtering(ph.n, ph.p, ph.open, false))])
    case Filter(c) =>
      s.(workers := s.workers[w := me.(phase :=
        Filtering(ph.n, ph.p, ph.todo - {c}, ph.found || c !in s.recentlyClosed))])
    case Decide =>
      s.(workers := s.workers[w := me.(phase := if ph.found then Finished else Guarding(ph.n, ph.p))])
    case Guard =>
      if ph.p in s.attempted
      then s.(workers := s.workers[w := me.(phase := Finished)])
      else s.(attempted := s.attempted + {ph.p}, cascades := s.cascades + multiset{ph.p},
              workers := s.workers[w := Worker(Closing(ph.p), true)])
    case Unmark =>
      s.(attempted := s.attempted - {ph.p}, workers := s.workers[w := me.(phase := Finished)])
  }

  function Failures(s: State): set<Issue>
  {
    s.unclosed + s.unasked + s.unlisted
  }

  /** A batch starts with one worker per issue to close; earlier batches left nothing half done. */
  ghost predicate Init(s: State)
  {
    && s.closed == s.wasClosed && s.attempted == s.wasAttempted
    && s.recentlyClosed <= s.closed && s.attempted <= s.closed
    && s.noted == {} && s.cascades == s.failedCascades == multiset{} && Failures(s) == {}
    && forall w :: w in s.workers ==> s.workers[w].phase.Closing? && !s.workers[w].cascading
  }

  datatype Move = Move(worker: WorkerId, action: Action)

  ghost predicate IsBehavior(b: seq<State>, moves: seq<Move>)
  {
    && |b| == |moves| + 1
    && Init(b[0])
    && forall k :: 0 <= k < |moves| ==>
         Enabled(b[k], moves[k].worker, moves[k].action) && b[k + 1] == Apply(b[k], moves[k].worker, moves[k].action)
  }

  ghost predicate Quiet(s: State)
  {
    forall w :: w in s.workers ==> s.workers[w].phase.Finished?
  }

  // ---------- invariants ----------

  ghost predicate Bounds(s: State)
  {
    && s.wasClosed <= s.closed && s.recentlyClosed <= s.closed
    && s.noted <= s.recentlyClosed
    && s.wasAttempted <= s.wasClosed
  }

  /** Closed before the batch and remembered no more. */
  function Forgotten(s: State): set<Issue>
  {
    s.wasClosed - s.recentlyClosed
  }

  /** What a worker knows.  A parent entered by a cascade has no open sub-issue. */
  ghost predicate Knows(s: State, me: Worker)
  {
    var ph := me.phase;
    match ph
    case Closing(n) => me.cascading ==> Children(s.parent, n) <= s.closed && n in s.attempted
    case Noting(n) => n in s.closed && (me.cascading ==> Children(s.parent, n) <= s.closed && n in s.attempted)
    case Asking(n) => true
    case Reading(n, p, todo, open) =>
      && n in s.parent && s.parent[n] == p
      && todo <= Children(s.parent, p) && open <= Children(s.parent, p) - Forgotten(s)
      && Children(s.parent, p) - todo - open <= s.closed
    case Filtering(n, p, todo, found) =>
      && n in s.parent && s.parent[n] == p
      && todo <= Children(s.parent, p) - Forgotten(s)
      && (!found ==> Children(s.parent, p) - todo <= s.closed)
    case Guarding(n, p) => n in s.parent && s.parent[n] == p && Children(s.parent, p) <= s.closed
    case Unmarking(p) => p in s.unclosed && p in s.attempted
    case Finished => true
  }

  ghost predicate AllKnow(s: State)
  {
    forall w :: w in s.workers ==> Knows(s, s.workers[w])
  }

  /** The worker that put p on the list of entered parents and has not closed it yet, or takes it off again. */
  predicate Carries(me: Worker, p: Issue)
  {
    (me.cascading && (me.phase == Closing(p) || me.phase == Noting(p))) || me.phase == Unmarking(p)
  }

  ghost predicate Carried(s: State, p: Issue)
  {
    exists w :: w in s.workers && Carries(s.workers[w], p)
  }

  ghost predicate CarriedOnce(s: State)
  {
    && (forall w, v, p :: w in s.workers && v in s.workers && Carries(s.workers[w], p) && Carries(s.workers[v], p) ==> w == v)
    && (forall w, p :: w in s.workers && Carries(s.workers[w], p) ==> p in s.attempted && p !in s.wasAttempted)
  }

  ghost predicate MarksBacked(s: State)
  {
    forall p :: p in s.attempted ==>
      p in s.wasAttempted || (p in s.noted && p in s.closed) || Carried(s, p)
  }

  ghost predicate Unnoted(s: State, c: Issue)
  {
    exists w :: w in s.workers && s.workers[w].phase == Noting(c)
  }

  ghost predicate ClosedAccounted(s: State)
  {
    forall c :: c in s.closed ==> c in s.wasClosed || c in s.noted || c in s.unclosed || Unnoted(s, c)
  }

  /** A worker that is bound to find every sub-issue of p closed once all of them are remembered. */
  predicate WillEnter(parent: map<Issue, Issue>, me: Worker, p: Issue)
  {
    match me.phase
    case Asking(n) => n in parent && parent[n] == p
    case Reading(_, q, _, _) => p == q
    case Filtering(_, q, _, found) => p == q && !found
    case Guarding(_, q) => p == q
    case _ => false
  }

  ghost predicate Promised(s: State, p: Issue)
  {
    exists w :: w in s.workers && WillEnter(s.parent, s.workers[w], p)
  }

  /** All sub-issues of p are closed and remembered, at least one by this batch. */
  ghost predicate Ripe(s: State, p: Issue)
  {
    Children(s.parent, p) <= s.noted + s.wasClosed && Children(s.parent, p) * s.noted != {}
  }

  /** Closing the parent failed, or some request for one of its sub-issues. */
  predicate Touched(s: State, p: Issue)
  {
    p in s.unclosed || Children(s.parent, p) * Failures(s) != {}
  }

  ghost predicate RipeEntered(s: State)
  {
    forall p :: Ripe(s, p) && !Touched(s, p) ==> p in s.attempted || Promised(s, p)
  }

  ghost predicate Unmarks(s: State, p: Issue)
  {
    exists w :: w in s.workers && s.workers[w].phase == Unmarking(p)
  }

  /** A mark of this batch that nobody is about to take off again. */
  ghost predicate MarkStays(s: State, p: Issue)
  {
    p in s.attempted && p !in s.wasAttempted && !Unmarks(s, p)
  }

  /** Each entry into a parent has led to a failed close, or is the one that its mark stands for. */
  ghost predicate CountsMatch(s: State)
  {
    && s.wasAttempted <= s.attempted
    && (forall p :: s.cascades[p] == s.failedCascades[p] + if MarkStays(s, p) then 1 else 0)
    && (forall p :: s.failedCascades[p] > 0 ==> p in s.unclosed)
  }

  ghost predicate Inv(s: State)
  {
    Bounds(s) && AllKnow(s) && CarriedOnce(s) && MarksBacked(s) && ClosedAccounted(s) && RipeEntered(s) && CountsMatch(s)
  }

  lemma InitInv(s: State)
    requires Init(s)
    ensures Inv(s)
  {
  }

  lemma StepFrame(s: State, w: WorkerId, a: Action)
    requires Inv(s) && Enabled(s, w, a)
    ensures var t := Apply(s, w, a);
            && t.workers == s.workers[w := t.workers[w]]
            && t.parent == s.parent && t.wasClosed == s.wasClosed && t.wasAttempted == s.wasAttempted
            && s.closed <= t.closed && s.recentlyClosed <= t.recentlyClosed && s.noted <= t.noted
            && s.unclosed <= t.unclosed && Failures(s) <= Failures(t)
            && (forall p :: p in s.attempted ==> p in t.attempted || (a.Unmark? && s.workers[w].phase.p == p))
  {
  }

  lemma StepKnowsOther(s: State, t: State, me: Worker)
    requires Knows(s, me)
    requires t.parent == s.parent && t.wasClosed == s.wasClosed && s.closed <= t.closed && s.unclosed <= t.unclosed && s.recentlyClosed <= t.recentlyClosed
    requires forall p :: p in s.attempted && (Carries(me, p)) ==> p in t.attempted
    ensures Knows(t, me)
  {
  }

  lemma StepKnowsOwn(s: State, w: WorkerId, a: Action)
    requires Inv(s) && Enabled(s, w, a)
    ensures Bounds(Apply(s, w, a)) && Knows(Apply(s, w, a), Apply(s, w, a).workers[w])
  {
    assert Knows(s, s.workers[w]);
  }

  lemma StepKnows(s: State, w: WorkerId, a: Action)
    requires Inv(s) && Enabled(s, w, a)
    ensures Bounds(Apply(s, w, a)) && AllKnow(Apply(s, w, a))
  {
    var t := Apply(s, w, a);
    StepFrame(s, w, a);
    StepKnowsOwn(s, w, a);
    forall v | v in t.workers
      ensures Knows(t, t.workers[v])
    {
      if v != w {
        assert Knows(s, s.workers[v]);
        StepKnowsOther(s, t, s.workers[v]);
      }
    }
  }

  /** A worker begins to carry a parent only when it enters it, and then nobody carried it before. */
  lemma StepCarriesOwn(s: State, w: WorkerId, a: Action, p: Issue)
    requires Inv(s) && Enabled(s, w, a) && Carries(Apply(s, w, a).workers[w], p)
    ensures Carries(s.workers[w], p) || (a.Guard? && p !in s.attempted && p in Apply(s, w, a).attempted)
    ensures !a.Unmark?
  {
    assert Knows(s, s.workers[w]);
  }

  lemma StepCarried(s: State, w: WorkerId, a: Action)
    requires Inv(s) && Enabled(s, w, a)
    ensures CarriedOnce(Apply(s, w, a))
  {
    var t := Apply(s, w, a);
    StepFrame(s, w, a);
    forall p | Carries(t.workers[w], p)
      ensures (Carries(s.workers[w], p) && !a.Unmark?) || (p !in s.attempted && p in t.attempted)
    {
      StepCarriesOwn(s, w, a, p);
    }
    assert a.Unmark? ==> Carries(s.workers[w], s.workers[w].phase.p);
  }

  lemma StepCounts(s: State, w: WorkerId, a: Action)
    requires Inv(s) && Enabled(s, w, a)
    ensures CountsMatch(Apply(s, w, a))
  {
    assert Knows(s, s.workers[w]);
    assert a.Unmark? ==> Carries(s.workers[w], s.workers[w].phase.p);
    forall p
      ensures Apply(s, w, a).cascades[p] == Apply(s, w, a).failedCascades[p] + if MarkStays(Apply(s, w, a), p) then 1 else 0
    {
      StepCount(s, w, a, p);
    }
  }

  /** Whoever else is about to take a mark off is so before and after the step. */
  lemma UnmarksElsewhere(s: State, w: WorkerId, a: Action, p: Issue)
    requires Inv(s) && Enabled(s, w, a)
    ensures
      var t := Apply(s, w, a);
      Unmarks(t, p) <==> t.workers[w].phase == Unmarking(p) || (Unmarks(s, p) && s.workers[w].phase != Unmarking(p))
  {
    var t := Apply(s, w, a);
    StepFrame(s, w, a);
    if Unmarks(s, p) && s.workers[w].phase != Unmarking(p) {
      var v :| v in s.workers && s.workers[v].phase == Unmarking(p);
      assert t.workers[v].phase == Unmarking(p);
    }
    OneUnmarks(s, p);
    assert forall v :: v in t.workers && v != w && t.workers[v].phase == Unmarking(p) ==> s.workers[v].phase == Unmarking(p);
  }

  lemma OneUnmarks(s: State, p: Issue)
    requires CarriedOnce(s)
    ensures forall v, w :: v in s.workers && w in s.workers && s.workers[v].phase == s.workers[w].phase == Unmarking(p) ==> v == w
  {
    assert forall v :: v in s.workers && s.workers[v].phase == Unmarking(p) ==> Carries(s.workers[v], p);
  }

  /** Who is about to close an entered parent is the only one to carry its mark. */
  lemma OnlyCarrier(s: State, w: WorkerId, p: Issue)
    requires Inv(s) && w in s.workers && s.workers[w].cascading && s.workers[w].phase == Closing(p)
    ensures MarkStays(s, p)
  {
    assert Carries(s.workers[w], p);
    assert forall v :: v in s.workers && s.workers[v].phase == Unmarking(p) ==> Carries(s.workers[v], p);
    assert forall v :: v in s.workers && Carries(s.workers[v], p) ==> v == w;
  }

  lemma UnmarksMarked(s: State, p: Issue)
    requires Inv(s)
    ensures Unmarks(s, p) ==> p in s.attempted
  {
    if Unmarks(s, p) {
      var v :| v in s.workers && s.workers[v].phase == Unmarking(p);
      assert Knows(s, s.workers[v]);
    }
  }

  lemma StepCount(s: State, w: WorkerId, a: Action, p: Issue)
    requires Inv(s) && Enabled(s, w, a)
    ensures Apply(s, w, a).cascades[p] == Apply(s, w, a).failedCascades[p] + if MarkStays(Apply(s, w, a), p) then 1 else 0
  {
    UnmarksElsewhere(s, w, a, p);
    var me := s.workers[w];
    UnmarksMarked(s, p);
    if a.CloseFails? && me.cascading && me.phase.n == p {
      OnlyCarrier(s, w, p);
    } else if a.Unmark? && me.phase.p == p {
      assert Unmarks(s, p);
    } else if !(a.Guard? && me.phase.p == p) {
      assert MarkStays(Apply(s, w, a), p) == MarkStays(s, p);
    }
  }

  lemma StepMarks(s: State, w: WorkerId, a: Action)
    requires Inv(s) && Enabled(s, w, a)
    ensures MarksBacked(Apply(s, w, a))
  {
    var t := Apply(s, w, a);
    StepFrame(s, w, a);
    assert Knows(s, s.workers[w]);
    forall p | p in t.attempted
      ensures p in t.wasAttempted || (p in t.noted && p in t.closed) || Carried(t, p)
    {
      if p !in s.attempted {
        assert Carries(t.workers[w], p);
      } else if Carried(s, p) {
        var v :| v in s.workers && Carries(s.workers[v], p);
        assert v == w || Carries(t.workers[v], p);
        assert a.Note? || a.Unmark? || Carries(t.workers[v], p);
      }
    }
  }

  lemma StepAccounted(s: State, w: WorkerId, a: Action)
    requires Inv(s) && Enabled(s, w, a)
    ensures ClosedAccounted(Apply(s, w, a))
  {
    var t := Apply(s, w, a);
    StepFrame(s, w, a);
    forall c | c in t.closed && c !in t.unclosed
      ensures c in t.wasClosed || c in t.noted || Unnoted(t, c)
    {
      if c !in s.closed {
        assert t.workers[w].phase == Noting(c);
      } else if Unnoted(s, c) {
        var v :| v in s.workers && s.workers[v].phase == Noting(c);
        assert v == w || t.workers[v].phase == Noting(c);
      }
    }
  }

  lemma FailureTouches(s: State, w: WorkerId, a: Action, p: Issue)
    requires Enabled(s, w, a) && Knows(s, s.workers[w]) && WillEnter(s.parent, s.workers[w], p)
    ensures a.RequestFails? ==> Touched(Apply(s, w, a), p)
  {
    if a.RequestFails? {
      assert s.workers[w].phase.n in Children(s.parent, p) * Failures(Apply(s, w, a));
    }
  }

  /** Who is bound to enter p stays so, unless it enters p or p is entered already. */
  lemma StillWillEnter(s: State, w: WorkerId, a: Action, p: Issue)
    requires Inv(s) && Enabled(s, w, a) && Ripe(s, p) && !Touched(Apply(s, w, a), p)
    requires WillEnter(s.parent, s.workers[w], p)
    ensures a.Guard? || WillEnter(s.parent, Apply(s, w, a).workers[w], p)
  {
    assert Knows(s, s.workers[w]);
    FailureTouches(s, w, a, p);
  }

  lemma StepRipe(s: State, w: WorkerId, a: Action)
    requires Inv(s) && Enabled(s, w, a)
    ensures RipeEntered(Apply(s, w, a))
  {
    var t := Apply(s, w, a);
    StepFrame(s, w, a);
    assert Knows(s, s.workers[w]);
    forall p | Ripe(t, p) && !Touched(t, p)
      ensures p in t.attempted || Promised(t, p)
    {
      if a.Note? && s.workers[w].phase.n in Children(s.parent, p) {
        assert WillEnter(t.parent, t.workers[w], p);
      } else {
        assert Children(s.parent, p) * s.noted == Children(s.parent, p) * t.noted;
        assert Ripe(s, p) && !Touched(s, p);
        if p !in s.attempted {
          var v :| v in s.workers && WillEnter(s.parent, s.workers[v], p);
          assert v == w || WillEnter(t.parent, t.workers[v], p);
          if v == w {
            StillWillEnter(s, w, a, p);
          }
        }
      }
    }
  }

  lemma StepInv(s: State, w: WorkerId, a: Action)
    requires Inv(s) && Enabled(s, w, a)
    ensures Inv(Apply(s, w, a))
  {
    StepKnows(s, w, a);
    StepCarried(s, w, a);
    StepCounts(s, w, a);
    StepMarks(s, w, a);
    StepAccounted(s, w, a);
    StepRipe(s, w, a);
  }

  lemma {:induction false} BehaviorInv(b: seq<State>, moves: seq<Move>, k: nat)
    requires IsBehavior(b, moves) && k <= |moves|
    ensures Inv(b[k])
    ensures b[k].parent == b[0].parent && b[k].wasClosed == b[0].closed && b[k].wasAttempted == b[0].attempted
    ensures b[0].closed <= b[k].closed
  {
    if k == 0 {
      InitInv(b[0]);
    } else {
      BehaviorInv(b, moves, k - 1);
      StepInv(b[k - 1], moves[k - 1].worker, moves[k - 1].action);
      StepFrame(b[k - 1], moves[k - 1].worker, moves[k - 1].action);
    }
  }

  // ---------- the history in the state, and the moves ----------

  ghost predicate CloseFailedAt(b: seq<State>, moves: seq<Move>, j: nat, c: Issue)
    requires |b| == |moves| + 1 && j < |moves|
  {
    moves[j].action.CloseFails? && moves[j].worker in b[j].workers && b[j].workers[moves[j].worker].phase == Closing(c)
  }

  ghost predicate AskFailedAt(b: seq<State>, moves: seq<Move>, j: nat, c: Issue)
    requires |b| == |moves| + 1 && j < |moves|
  {
    moves[j].action.RequestFails? && moves[j].worker in b[j].workers && b[j].workers[moves[j].worker].phase == Asking(c)
  }

  ghost predicate ListFailedAt(b: seq<State>, moves: seq<Move>, j: nat, c: Issue)
    requires |b| == |moves| + 1 && j < |moves|
  {
    && moves[j].action.RequestFails? && moves[j].worker in b[j].workers
    && b[j].workers[moves[j].worker].phase.Reading? && b[j].workers[moves[j].worker].phase.n == c
  }

  /** The failures on record are exactly the requests that failed. */
  lemma {:induction false} FailuresAreMoves(b: seq<State>, moves: seq<Move>, k: nat, c: Issue)
    requires IsBehavior(b, moves) && k <= |moves|
    ensures c in b[k].unclosed <==> exists j :: 0 <= j < k && CloseFailedAt(b, moves, j, c)
    ensures c in b[k].unasked <==> exists j :: 0 <= j < k && AskFailedAt(b, moves, j, c)
    ensures c in b[k].unlisted <==> exists j :: 0 <= j < k && ListFailedAt(b, moves, j, c)
  {
    if k != 0 {
      FailuresAreMoves(b, moves, k - 1, c);
      FailureRecorded(b[k - 1], moves[k - 1].worker, moves[k - 1].action);
      assert b[k] == Apply(b[k - 1], moves[k - 1].worker, moves[k - 1].action);
      assert c in b[k].unclosed <==> c in b[k - 1].unclosed || CloseFailedAt(b, moves, k - 1, c);
      assert c in b[k].unasked <==> c in b[k - 1].unasked || AskFailedAt(b, moves, k - 1, c);
      assert c in b[k].unlisted <==> c in b[k - 1].unlisted || ListFailedAt(b, moves, k - 1, c);
    }
  }

  lemma FailureRecorded(s: State, w: WorkerId, a: Action)
    requires Enabled(s, w, a)
    ensures
      var t, ph := Apply(s, w, a), s.workers[w].phase;
      && t.unclosed == s.unclosed + (if a.CloseFails? then {ph.n} else {})
      && t.unasked == s.unasked + (if a.RequestFails? && ph.Asking? then {ph.n} else {})
      && t.unlisted == s.unlisted + (if a.RequestFails? && ph.Reading? then {ph.n} else {})
  {
  }

  /** Some request failed that the parent's turn depends on: to close it, or any for one of its sub-issues. */
  ghost predicate Hindered(b: seq<State>, moves: seq<Move>, p: Issue)
    requires IsBehavior(b, moves)
  {
    exists j :: 0 <= j < |moves| && HinderedAt(b, moves, j, p)
  }

  ghost predicate HinderedAt(b: seq<State>, moves: seq<Move>, j: nat, p: Issue)
    requires |b| == |moves| + 1 && j < |moves|
  {
    || CloseFailedAt(b, moves, j, p)
    || exists c :: c in Children(b[0].parent, p) && (CloseFailedAt(b, moves, j, c) || AskFailedAt(b, moves, j, c) || ListFailedAt(b, moves, j, c))
  }

  lemma TouchedIsHindered(b: seq<State>, moves: seq<Move>, p: Issue)
    requires IsBehavior(b, moves)
    ensures Touched(b[|moves|], p) ==> Hindered(b, moves, p)
  {
    var k, t := |moves|, b[|moves|];
    BehaviorInv(b, moves, k);
    if p in t.unclosed {
      FailuresAreMoves(b, moves, k, p);
      var j :| 0 <= j < k && CloseFailedAt(b, moves, j, p);
      assert HinderedAt(b, moves, j, p);
    } else if c :| c in Children(t.parent, p) * Failures(t) {
      FailuresAreMoves(b, moves, k, c);
      var j :| 0 <= j < k && (CloseFailedAt(b, moves, j, c) || AskFailedAt(b, moves, j, c) || ListFailedAt(b, moves, j, c));
      assert HinderedAt(b, moves, j, p);
    }
  }

  /** How often workers have gone on to close a parent, and how often such a close failed. */
  ghost function Entries(b: seq<State>, moves: seq<Move>, k: nat, p: Issue): nat
    requires |b| == |moves| + 1 && k <= |moves|
  {
    if k == 0 then 0 else Entries(b, moves, k - 1, p) + if EnteredAt(b, moves, k - 1, p) then 1 else 0
  }

  ghost predicate EnteredAt(b: seq<State>, moves: seq<Move>, j: nat, p: Issue)
    requires |b| == |moves| + 1 && j < |moves|
  {
    && moves[j].worker in b[j].workers && b[j].workers[moves[j].worker].phase.Guarding?
    && moves[j].worker in b[j + 1].workers && b[j + 1].workers[moves[j].worker].phase == Closing(p)
  }

  ghost function FailedEntries(b: seq<State>, moves: seq<Move>, k: nat, p: Issue): nat
    requires |b| == |moves| + 1 && k <= |moves|
  {
    if k == 0 then 0
    else FailedEntries(b, moves, k - 1, p)
         + if CloseFailedAt(b, moves, k - 1, p) && b[k - 1].workers[moves[k - 1].worker].cascading then 1 else 0
  }

  lemma {:induction false} CascadesAreEntries(b: seq<State>, moves: seq<Move>, k: nat, p: Issue)
    requires IsBehavior(b, moves) && k <= |moves|
    ensures b[k].cascades[p] == Entries(b, moves, k, p) && b[k].failedCascades[p] == FailedEntries(b, moves, k, p)
  {
    if k != 0 {
      CascadesAreEntries(b, moves, k - 1, p);
      EntryRecorded(b[k - 1], moves[k - 1].worker, moves[k - 1].action, p);
      assert b[k] == Apply(b[k - 1], moves[k - 1].worker, moves[k - 1].action);
    }
  }

  lemma EntryRecorded(s: State, w: WorkerId, a: Action, p: Issue)
    requires Enabled(s, w, a)
    ensures
      var t, me := Apply(s, w, a), s.workers[w];
      && w in t.workers
      && t.cascades[p] == s.cascades[p] + (if me.phase.Guarding? && t.workers[w].phase == Closing(p) then 1 else 0)
      && t.failedCascades[p] == s.failedCascades[p] + (if a.CloseFails? && me.phase == Closing(p) && me.cascading then 1 else 0)
  {
  }

  // ---------- what the workers do with their own issues ----------

  /** How far a worker has come with the issue n it was given. */
  predicate OnItsWay(s: State, me: Worker, n: Issue)
  {
    && (!me.cascading ==>
          match me.phase
          case Closing(m) => m == n
          case Noting(m) => m == n
          case Asking(m) => m == n
          case Reading(m, _, _, _) => m == n
          case Filtering(m, _, _, _) => m == n
          case Guarding(m, _) => m == n
          case Unmarking(_) => false
          case Finished => true)
    && (n in s.noted || n in s.unclosed || (!me.cascading && (me.phase == Closing(n) || me.phase == Noting(n))))
  }

  lemma GoesItsWay(s: State, w: WorkerId, a: Action, v: WorkerId, n: Issue)
    requires Inv(s) && Enabled(s, w, a) && v in s.workers && OnItsWay(s, s.workers[v], n)
    ensures v in Apply(s, w, a).workers && OnItsWay(Apply(s, w, a), Apply(s, w, a).workers[v], n)
  {
    StepFrame(s, w, a);
  }

  lemma {:induction false} WorkersGoTheirWay(b: seq<State>, moves: seq<Move>, k: nat, w: WorkerId)
    requires IsBehavior(b, moves) && k <= |moves| && w in b[0].workers
    ensures w in b[k].workers && OnItsWay(b[k], b[k].workers[w], b[0].workers[w].phase.n)
  {
    if k != 0 {
      WorkersGoTheirWay(b, moves, k - 1, w);
      BehaviorInv(b, moves, k - 1);
      GoesItsWay(b[k - 1], moves[k - 1].worker, moves[k - 1].action, w, b[0].workers[w].phase.n);
    }
  }

  // ---------- what every batch achieves ----------

  /** Every issue of the batch is closed and remembered at the end, unless closing it failed. */
  lemma BatchClosesItsIssues(b: seq<State>, moves: seq<Move>, w: WorkerId)
    requires IsBehavior(b, moves) && Quiet(b[|moves|]) && w in b[0].workers
    requires forall j :: 0 <= j < |moves| ==> !CloseFailedAt(b, moves, j, b[0].workers[w].phase.n)
    ensures b[0].workers[w].phase.n in b[|moves|].closed && b[0].workers[w].phase.n in b[|moves|].noted
  {
    WorkersGoTheirWay(b, moves, |moves|, w);
    FailuresAreMoves(b, moves, |moves|, b[0].workers[w].phase.n);
    BehaviorInv(b, moves, |moves|);
  }

  /** Nothing else is closed but parents all of whose sub-issues are. */
  ghost predicate RightlyClosed(b: seq<State>, s: State, c: Issue)
    requires b != []
  {
    || c in b[0].closed
    || (exists w :: w in b[0].workers && b[0].workers[w].phase == Closing(c))
    || (Children(s.parent, c) != {} && Children(s.parent, c) <= s.closed)
  }

  lemma {:induction false} OnlyTheseAreClosed(b: seq<State>, moves: seq<Move>, k: nat, c: Issue)
    requires IsBehavior(b, moves) && k <= |moves| && c in b[k].closed
    ensures RightlyClosed(b, b[k], c)
  {
    if k != 0 {
      ClosesItsOwn(b[k - 1], moves[k - 1].worker, moves[k - 1].action, c);
      if c in b[k - 1].closed {
        OnlyTheseAreClosed(b, moves, k - 1, c);
      } else {
        CloserHasReason(b, moves, k - 1);
      }
      RightlyStays(b, b[k - 1], b[k], c);
    }
  }

  lemma ClosesItsOwn(s: State, w: WorkerId, a: Action, c: Issue)
    requires Enabled(s, w, a) && c in Apply(s, w, a).closed
    ensures c in s.closed || s.workers[w].phase == Closing(c)
    ensures s.closed <= Apply(s, w, a).closed && Apply(s, w, a).parent == s.parent
  {
  }

  lemma RightlyStays(b: seq<State>, s: State, t: State, c: Issue)
    requires b != [] && RightlyClosed(b, s, c) && t.parent == s.parent && s.closed <= t.closed
    ensures RightlyClosed(b, t, c)
  {
  }

  lemma CloserHasReason(b: seq<State>, moves: seq<Move>, k: nat)
    requires IsBehavior(b, moves) && k < |moves| && b[k].workers[moves[k].worker].phase.Closing?
    ensures RightlyClosed(b, b[k], b[k].workers[moves[k].worker].phase.n)
  {
    var w := moves[k].worker;
    BehaviorInv(b, moves, k);
    assert Knows(b[k], b[k].workers[w]);
    SameWorkers(b, moves, k);
    WorkersGoTheirWay(b, moves, k, w);
    CascadingHasChild(b, moves, k, w);
  }

  lemma {:induction false} SameWorkers(b: seq<State>, moves: seq<Move>, k: nat)
    requires IsBehavior(b, moves) && k <= |moves|
    ensures b[k].workers.Keys == b[0].workers.Keys
  {
    if k != 0 {
      SameWorkers(b, moves, k - 1);
      OneWorker(b[k - 1], moves[k - 1].worker, moves[k - 1].action);
    }
  }

  /** A cascading worker closes a parent, never an issue without sub-issues. */
  ghost predicate ClosesParent(s: State, w: WorkerId)
  {
    w in s.workers && s.workers[w].cascading && s.workers[w].phase.Closing? ==> Children(s.parent, s.workers[w].phase.n) != {}
  }

  lemma {:induction false} CascadingHasChild(b: seq<State>, moves: seq<Move>, k: nat, w: WorkerId)
    requires IsBehavior(b, moves) && k <= |moves|
    ensures ClosesParent(b[k], w)
  {
    if k != 0 {
      CascadingHasChild(b, moves, k - 1, w);
      BehaviorInv(b, moves, k - 1);
      EntersWithChild(b[k - 1], moves[k - 1].worker, moves[k - 1].action, w);
    }
  }

  lemma EntersWithChild(s: State, v: WorkerId, a: Action, w: WorkerId)
    requires Inv(s) && Enabled(s, v, a) && ClosesParent(s, w)
    ensures ClosesParent(Apply(s, v, a), w)
  {
    OneWorker(s, v, a);
    assert Knows(s, s.workers[v]);
    if a.Guard? {
      assert s.workers[v].phase.n in Children(s.parent, s.workers[v].phase.p);
    }
  }

  /** Whatever fails: a cascade never sends the close of a parent that has an open sub-issue, so neither a close that
      succeeds nor one that is reported as failed and applied all the same comes too early. */
  lemma CascadeNeverClosesEarly(b: seq<State>, moves: seq<Move>, k: nat)
    requires IsBehavior(b, moves) && k < |moves|
    requires (moves[k].action.CloseOk? || moves[k].action.CloseFails?) && b[k].workers[moves[k].worker].cascading
    ensures Children(b[0].parent, b[k].workers[moves[k].worker].phase.n) <= b[k].closed
  {
    BehaviorInv(b, moves, k);
    assert Knows(b[k], b[k].workers[moves[k].worker]);
  }

  /** Whatever fails: once all workers are finished, a parent that is still marked as entered is
      closed, so every parent whose close failed is free to be tried again. */
  lemma NoMarkOnAnOpenIssue(b: seq<State>, moves: seq<Move>)
    requires IsBehavior(b, moves) && Quiet(b[|moves|])
    ensures b[|moves|].attempted <= b[|moves|].closed
  {
    BehaviorInv(b, moves, |moves|);
  }

  /** When all workers are finished, a parent that this batch entered is marked if and only if its last entry closed it:
      all its other entries, and all of them if it is not marked, were closes that failed. */
  lemma MarkStaysUnlessCloseFailed(b: seq<State>, moves: seq<Move>, p: Issue)
    requires IsBehavior(b, moves) && Quiet(b[|moves|]) && p !in b[0].attempted
    ensures
      var t, k := b[|moves|], |moves|;
      && Entries(b, moves, k, p) == FailedEntries(b, moves, k, p) + (if p in t.attempted then 1 else 0)
      && (p in t.attempted ==> p in t.closed && p in t.noted)
  {
    var t := b[|moves|];
    BehaviorInv(b, moves, |moves|);
    CascadesAreEntries(b, moves, |moves|, p);
    assert !Unmarks(t, p) && !Carried(t, p);
  }

  /** The last sub-issue to close closes the parent, whatever fails elsewhere: a parent of an issue this batch
      closed, all of whose sub-issues ended up closed, is closed too, unless a request failed for it or for one of
      its sub-issues; and unless an earlier batch had entered it, exactly one worker of this batch did. */
  lemma LastChildClosesParent(b: seq<State>, moves: seq<Move>, c: Issue)
    requires IsBehavior(b, moves) && Quiet(b[|moves|])
    requires c in b[0].parent && c in b[|moves|].noted && !Hindered(b, moves, b[0].parent[c])
    requires Children(b[0].parent, b[0].parent[c]) <= b[|moves|].closed
    ensures var p := b[0].parent[c];
            && p in b[|moves|].closed
            && (p !in b[0].attempted ==> p in b[|moves|].noted && Entries(b, moves, |moves|, p) == 1)
  {
    var t, p := b[|moves|], b[0].parent[c];
    BehaviorInv(b, moves, |moves|);
    TouchedIsHindered(b, moves, p);
    CascadesAreEntries(b, moves, |moves|, p);
    assert c in Children(t.parent, p) * t.noted;
    forall d | d in Children(t.parent, p)
      ensures d in t.noted + t.wasClosed
    {
      assert d !in Children(t.parent, p) * Failures(t);
      assert !Unnoted(t, d);
    }
    assert Ripe(t, p);
    assert !Promised(t, p);
    assert !Carried(t, p);
  }

  /** ... and so do all the ancestors, as far up as every sub-issue is closed and no request failed on the way. */
  lemma {:induction false} AncestorsClose(b: seq<State>, moves: seq<Move>, line: seq<Issue>)
    requires IsBehavior(b, moves) && Quiet(b[|moves|])
    requires line != [] && line[0] in b[|moves|].noted
    requires forall i :: 0 <= i < |line| - 1 ==> line[i] in b[0].parent && b[0].parent[line[i]] == line[i + 1]
    requires forall i :: 0 < i < |line| ==>
               line[i] !in b[0].attempted && Children(b[0].parent, line[i]) <= b[|moves|].closed && !Hindered(b, moves, line[i])
    ensures forall i :: 0 < i < |line| ==>
              line[i] in b[|moves|].closed && line[i] in b[|moves|].noted && Entries(b, moves, |moves|, line[i]) == 1
  {
    if |line| > 1 {
      assert line[1] == b[0].parent[line[0]] && Children(b[0].parent, line[1]) <= b[|moves|].closed && !Hindered(b, moves, line[1]);
      LastChildClosesParent(b, moves, line[0]);
      AncestorsClose(b, moves, line[1..]);
      assert forall i :: 1 < i < |line| ==> line[i] == line[1..][i - 1];
    }
  }

  /** Every issue that has sub-issues, all of them closed, is closed. */
  ghost predicate Settled(parent: map<Issue, Issue>, closed: set<Issue>)
  {
    forall p :: Children(parent, p) != {} && Children(parent, p) <= closed ==> p in closed
  }

  /** Seen from outside: a batch leaves at most those parents unsettled for which, or for whose sub-issues, a
      request failed. */
  lemma BatchLeavesUnsettled(b: seq<State>, moves: seq<Move>, p: Issue)
    requires IsBehavior(b, moves) && Quiet(b[|moves|]) && Settled(b[0].parent, b[0].closed)
    requires Children(b[0].parent, p) != {} && Children(b[0].parent, p) <= b[|moves|].closed && p !in b[|moves|].closed
    ensures Hindered(b, moves, p)
  {
    var t := b[|moves|];
    BehaviorInv(b, moves, |moves|);
    TouchedIsHindered(b, moves, p);
    assert !(Children(t.parent, p) <= b[0].closed);
    var c :| c in Children(t.parent, p) && c !in b[0].closed;
    assert !Unnoted(t, c);
    if c in t.noted && !Hindered(b, moves, p) {
      LastChildClosesParent(b, moves, c);
    }
    assert c !in t.noted ==> c in Children(t.parent, p) * Failures(t);
  }

  /** Batches in which no request fails keep a tracker settled. */
  lemma BatchKeepsSettled(b: seq<State>, moves: seq<Move>)
    requires IsBehavior(b, moves) && Quiet(b[|moves|])
    requires forall j :: 0 <= j < |moves| ==> !moves[j].action.CloseFails? && !moves[j].action.RequestFails?
    requires Settled(b[0].parent, b[0].closed)
    ensures Settled(b[0].parent, b[|moves|].closed)
  {
    forall p | Children(b[0].parent, p) != {} && Children(b[0].parent, p) <= b[|moves|].closed
      ensures p in b[|moves|].closed
    {
      if p !in b[|moves|].closed {
        BatchLeavesUnsettled(b, moves, p);
      }
    }
  }

  /** A parent that is marked as entered when a batch begins is not entered by it again. */
  lemma MarkedIsNotEntered(b: seq<State>, moves: seq<Move>, k: nat, w: WorkerId)
    requires IsBehavior(b, moves) && k <= |moves| && w in b[k].workers && b[k].workers[w].cascading && b[k].workers[w].phase.Closing?
    ensures b[k].workers[w].phase.n !in b[0].attempted
  {
    BehaviorInv(b, moves, k);
    assert Carries(b[k].workers[w], b[k].workers[w].phase.n);
  }

  // ---------- every batch comes to an end ----------

  /** More than one worker can spend on one issue. */
  function Turn(s: State): nat
  {
    2 * |s.parent| + 10
  }

  function PhaseRank(me: Worker, size: nat): nat
  {
    match me.phase
    case Closing(_) => 2 * size + 8
    case Noting(_) => 2 * size + 7
    case Asking(_) => 2 * size + 6
    case Reading(_, _, todo, open) => 2 * |todo| + |open| + 5
    case Filtering(_, _, todo, _) => |todo| + 4
    case Guarding(_, _) => 3
    case Unmarking(_) => 1
    case Finished => 0
  }

  function WorkerRank(me: Worker, size: nat): nat
  {
    PhaseRank(me, size) + if me.phase.Finished? then 0 else 2 * size + 10
  }

  function Times(turn: nat, k: nat): nat
  {
    if k == 0 then 0 else turn + Times(turn, k - 1)
  }

  ghost function Fuel(s: State): nat
  {
    Times(Turn(s), Unentered(s)) + Busy(s)
  }

  ghost function Busy(s: State): nat
  {
    Sum(s.workers.Keys, s.workers, (me: Worker) => WorkerRank(me, |s.parent|))
  }

  /** How far the list of entered parents can still grow. */
  ghost function Unentered(s: State): nat
  {
    |s.parent.Values - s.attempted|
  }

  lemma StepUnentered(s: State, w: WorkerId, a: Action)
    requires Enabled(s, w, a) && Knows(s, s.workers[w])
    ensures var t := Apply(s, w, a);
            if a.Guard? && !t.workers[w].phase.Finished? then Unentered(t) == Unentered(s) - 1
            else if a.Unmark? then Unentered(s) <= Unentered(t) <= Unentered(s) + 1
            else Unentered(t) == Unentered(s)
  {
    var t := Apply(s, w, a);
    if a.Guard? && !t.workers[w].phase.Finished? {
      var p := s.workers[w].phase.p;
      assert p in s.parent.Values;
      assert s.parent.Values - t.attempted == (s.parent.Values - s.attempted) - {p};
    } else if a.Unmark? {
      var p := s.workers[w].phase.p;
      SubsetSize(s.parent.Values - t.attempted, (s.parent.Values - s.attempted) + {p});
      SubsetSize(s.parent.Values - s.attempted, s.parent.Values - t.attempted);
    }
  }

  lemma AskRank(s: State, w: WorkerId)
    requires Enabled(s, w, Ask)
    ensures WorkerRank(Apply(s, w, Ask).workers[w], |s.parent|) < WorkerRank(s.workers[w], |s.parent|)
  {
    var n := s.workers[w].phase.n;
    if n in s.parent {
      SubsetSize(Children(s.parent, s.parent[n]), s.parent.Keys);
    }
  }

  lemma StepRank(s: State, w: WorkerId, a: Action)
    requires Enabled(s, w, a) && Knows(s, s.workers[w])
    ensures var t, size := Apply(s, w, a), |s.parent|;
            var was, now := WorkerRank(s.workers[w], size), WorkerRank(t.workers[w], size);
            if a.Guard? && !t.workers[w].phase.Finished? then now < was + Turn(s)
            else if a.Unmark? then now + Turn(s) < was
            else now < was
  {
    if a.Ask? {
      AskRank(s, w);
    } else {
      OtherRank(s, w, a);
    }
  }

  lemma OtherRank(s: State, w: WorkerId, a: Action)
    requires Enabled(s, w, a) && Knows(s, s.workers[w]) && !a.Ask?
    ensures var t, size := Apply(s, w, a), |s.parent|;
            var was, now := WorkerRank(s.workers[w], size), WorkerRank(t.workers[w], size);
            if a.Guard? && !t.workers[w].phase.Finished? then now < was + Turn(s)
            else if a.Unmark? then now + Turn(s) < was
            else now < was
  {
  }

  lemma OneWorker(s: State, w: WorkerId, a: Action)
    requires Enabled(s, w, a)
    ensures var t := Apply(s, w, a); t.parent == s.parent && w in t.workers && t.workers == s.workers[w := t.workers[w]]
  {
  }

  lemma StepBusy(s: State, w: WorkerId, a: Action)
    requires Enabled(s, w, a) && Knows(s, s.workers[w])
    ensures
      var t, size := Apply(s, w, a), |s.parent|;
      && t.parent == s.parent && WorkerRank(s.workers[w], size) <= Busy(s)
      && Busy(t) == Busy(s) - WorkerRank(s.workers[w], size) + WorkerRank(t.workers[w], size)
  {
    var t := Apply(s, w, a);
    OneWorker(s, w, a);
    assert t.workers.Keys == s.workers.Keys;
    SumUpdate(s.workers, (me: Worker) => WorkerRank(me, |s.parent|), w, t.workers[w]);
    SumTakes(s.workers.Keys, s.workers, (me: Worker) => WorkerRank(me, |s.parent|), w);
  }

  /** The fuel goes down if the worker's rank does, by a turn for each parent that can be entered again. */
  lemma Balance(turn: nat, before: nat, after: nat, was: nat, now: nat, sum: nat)
    requires was <= sum
    requires (before == after + 1 && now < was + turn) || (before <= after <= before + 1 && now + turn < was) || (after == before && now < was)
    ensures Times(turn, after) + (sum - was + now) < Times(turn, before) + sum
  {
    assert Times(turn, after + 1) == turn + Times(turn, after);
    assert Times(turn, before + 1) == turn + Times(turn, before);
  }

  lemma StepBurns(s: State, w: WorkerId, a: Action)
    requires Enabled(s, w, a) && Knows(s, s.workers[w])
    ensures Fuel(Apply(s, w, a)) < Fuel(s)
  {
    var t, size := Apply(s, w, a), |s.parent|;
    StepBusy(s, w, a);
    StepUnentered(s, w, a);
    StepRank(s, w, a);
    Balance(Turn(s), Unentered(s), Unentered(t), WorkerRank(s.workers[w], size), WorkerRank(t.workers[w], size), Busy(s));
  }

  lemma BehaviorBurns(b: seq<State>, moves: seq<Move>, k: nat)
    requires IsBehavior(b, moves) && k < |moves|
    ensures Fuel(b[k + 1]) < Fuel(b[k])
  {
    BehaviorInv(b, moves, k);
    assert Knows(b[k], b[k].workers[moves[k].worker]);
    StepBurns(b[k], moves[k].worker, moves[k].action);
  }

  /** No run is longer than the fuel it starts with, failures included. */
  lemma BatchIsBounded(b: seq<State>, moves: seq<Move>)
    requires IsBehavior(b, moves)
    ensures |moves| <= Fuel(b[0])
  {
    var fuel := seq(|b|, i requires 0 <= i < |b| => Fuel(b[i]));
    forall i | 0 <= i < |fuel| - 1
      ensures fuel[i + 1] < fuel[i]
    {
      BehaviorBurns(b, moves, i);
    }
    Descent(fuel, |moves|);
  }

  /** A run that stops short of its end can always go on without a failure. */
  lemma NobodyIsStuck(b: seq<State>, moves: seq<Move>)
    requires IsBehavior(b, moves) && !Quiet(b[|moves|])
    ensures exists w, a :: Enabled(b[|moves|], w, a) && !a.CloseFails? && !a.RequestFails?
  {
    var s := b[|moves|];
    var w :| w in s.workers && !s.workers[w].phase.Finished?;
    BehaviorInv(b, moves, |moves|);
    assert Knows(s, s.workers[w]);
    match s.workers[w].phase {
    case Closing(_) => assert Enabled(s, w, CloseOk);
    case Noting(_) => assert Enabled(s, w, Note);
    case Asking(_) => assert Enabled(s, w, Ask);
    case Reading(_, _, todo, _) =>
      if c :| c in todo {
        assert Enabled(s, w, Read(c, c !in s.closed));
      } else {
        assert Enabled(s, w, BeginFilter);
      }
    case Filtering(_, _, todo, _) =>
      if c :| c in todo {
        assert Enabled(s, w, Filter(c));
      } else {
        assert Enabled(s, w, Decide);
      }
    case Guarding(_, _) => assert Enabled(s, w, Guard);
    case Unmarking(_) => assert Enabled(s, w, Unmark);
    }
  }

  /** One worker closes the only sub-issue of a parent and finds nothing open; the parent is a sub-issue too. */
  lemma OneChildCloses() returns (b: seq<State>, moves: seq<Move>)
    ensures IsBehavior(b, moves) && |moves| == 6 && b[0].parent == map[1 := 2, 2 := 3] && b[0].closed == b[0].attempted == {}
    ensures b[6] == State(map[1 := 2, 2 := 3], {}, {}, {1}, {1}, {}, map[0 := Worker(Guarding(1, 2), false)], {1}, multiset{}, multiset{}, {}, {}, {})
  {
    var s0 := State(map[1 := 2, 2 := 3], {}, {}, {}, {}, {}, map[0 := Worker(Closing(1), false)], {}, multiset{}, multiset{}, {}, {}, {});
    var s1 := Apply(s0, 0, CloseOk);
    var s2 := Apply(s1, 0, Note);
    var s3 := Apply(s2, 0, Ask);
    assert Children(s0.parent, 2) == {1};
    var s4 := Apply(s3, 0, Read(1, false));
    assert s4.workers[0].phase.todo == {};
    var s5 := Apply(s4, 0, BeginFilter);
    var s6 := Apply(s5, 0, Decide);
    b := [s0, s1, s2, s3, s4, s5, s6];
    moves := [Move(0, CloseOk), Move(0, Note), Move(0, Ask), Move(0, Read(1, false)), Move(0, BeginFilter), Move(0, Decide)];
  }

  /** The worker goes on to close the parent. */
  lemma OneChildClosesItsParent() returns (b: seq<State>, moves: seq<Move>)
    ensures IsBehavior(b, moves) && |moves| == 9 && b[0].parent == map[1 := 2, 2 := 3] && b[0].closed == b[0].attempted == {}
    ensures b[9] == State(map[1 := 2, 2 := 3], {}, {}, {1, 2}, {1, 2}, {2}, map[0 := Worker(Asking(2), true)], {1, 2}, multiset{2}, multiset{}, {}, {}, {})
  {
    b, moves := OneChildCloses();
    var s7 := Apply(b[6], 0, Guard);
    var s8 := Apply(s7, 0, CloseOk);
    var s9 := Apply(s8, 0, Note);
    b := b + [s7, s8, s9];
    moves := moves + [Move(0, Guard), Move(0, CloseOk), Move(0, Note)];
  }

  /** Then looking up the next parent fails: all sub-issues of 3 are closed and 3 is not, and 2 stays marked, so that
      no later batch comes back to 3 through it. */
  lemma FailedLookupStrandsGrandparent() returns (b: seq<State>, moves: seq<Move>)
    ensures IsBehavior(b, moves) && Quiet(b[|moves|]) && Settled(b[0].parent, b[0].closed)
    ensures Children(b[0].parent, 3) == {2} && 2 in b[|moves|].closed && 3 !in b[|moves|].closed
    ensures 2 in b[|moves|].attempted && b[|moves|].unasked == Failures(b[|moves|]) == {2}
  {
    b, moves := OneChildClosesItsParent();
    assert forall p :: Children(b[0].parent, p) != {} ==> p == 2 || p == 3;
    assert 1 in Children(b[0].parent, 2) && 2 in Children(b[0].parent, 3);
    b := b + [Apply(b[9], 0, RequestFails)];
    moves := moves + [Move(0, RequestFails)];
  }
}
