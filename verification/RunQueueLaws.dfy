/** What the calls of libubox/runqueue.c do to tasks, on states and runs alone. */
module RunQueueLaws {
  import opened JsonValue
  import opened RunQueue

  /** The frame that is p frames from the bottom */
  function At(s: State, p: nat): Frame
    requires p < |s.stack|
  {
    s.stack[|s.stack| - 1 - p]
  }

  predicate IsWalk(f: Frame) {
    f.ActiveWalk? || f.PendingWalk?
  }

  /** The lowest n frames are there still; the iterators among them may have been moved. */
  ghost predicate Under(s: State, s': State, n: nat)
    requires n <= |s.stack|
  {
    n <= |s'.stack| && forall p: nat :: p < n && !IsWalk(At(s, p)) ==> At(s', p) == At(s, p)
  }

  lemma UnderRemoved(s: State, t: Id)
    requires t in s.tasks
    ensures |Removed(s, t).stack| == |s.stack| && Under(s, Removed(s, t), |s.stack|)
  {
  }

  lemma UnderComplete(s: State, t: Id)
    requires t in s.tasks
    ensures Under(s, Complete(s, t), |s.stack|)
  {
    hide Removed;
    UnderRemoved(s, t);
  }

  lemma UnderCancel(s: State, t: Id)
    requires t in s.tasks
    ensures Under(s, Cancel(s, t), |s.stack|)
  {
    hide Complete;
    UnderComplete(s, t);
  }

  lemma UnderKill(s: State, t: Id)
    requires t in s.tasks
    ensures Under(s, Kill(s, t), |s.stack|)
  {
    hide Complete;
    UnderComplete(Push(s, AfterKill(s.tasks[t].running)), t);
  }

  lemma UnderTurn(s: State)
    requires s.inactive != [] ==> s.inactive[0] in s.tasks
    ensures Under(s, Turn(s), |s.stack|)
  {
  }

  /** Only the frame on top can go, and only when what is left to do goes on. */
  lemma UnderStep(s: State, a: Action)
    requires Enabled(s, a)
    ensures Under(s, Apply(s, a), if a.GoOn? then |s.stack| - 1 else |s.stack|)
  {
    hide Complete, Cancel, Kill, Turn, Add;
    match a
    case TaskAdd(t, running, first) => assert Add(s, t, running, first).stack == s.stack by { AddStack(s, a); }
    case TaskComplete(t) => UnderComplete(s, t);
    case TaskCancel(t) => UnderCancel(s, t);
    case TaskKill(t) => UnderKill(s, t);
    case TimerFires => if s.timer == Start { UnderTurn(s.(timer := Off)); }
    case GoOn => UnderGoOn(s);
    case _ =>
  }

  lemma AddStack(s: State, a: Action)
    requires a.TaskAdd?
    ensures Add(s, a.t, a.running, a.first).stack == s.stack
  {
  }

  /** What replaces the frame on top does not matter. */
  lemma UnderTop(s: State, s1: State, s': State)
    requires s.stack != [] && |s1.stack| >= |s.stack| - 1 && Under(s1, s', |s1.stack|)
      && s1.stack[|s1.stack| - (|s.stack| - 1)..] == s.stack[1..]
    ensures Under(s, s', |s.stack| - 1)
  {
    forall p: nat | p < |s.stack| - 1 ensures At(s1, p) == At(s, p) {
      assert s.stack[1..][|s.stack| - 2 - p] == s.stack[|s.stack| - 1 - p];
    }
  }

  lemma UnderSame(s: State, s': State)
    requires s.stack != [] && s'.stack == s.stack[1..]
    ensures Under(s, s', |s.stack| - 1)
  {
  }

  lemma UnderGoOn(s: State)
    requires Enabled(s, GoOn)
    ensures Under(s, WentOn(s), |s.stack| - 1)
  {
    hide Complete, Cancel, Kill, Turn, Under, Behind, First;
    match s.stack[0]
    case Loop =>
      UnderTurn(Pop(s));
      UnderTop(s, Pop(s), WentOn(s));
    case Active => UnderPushed(s, WentOn(s));
    case Pending => UnderPushed(s, WentOn(s));
    case ActiveWalk(Some(u)) =>
      var s1 := Push(Pop(s), ActiveWalk(Behind(s.active, u)));
      UnderCancel(s1, u);
      UnderTop(s, s1, WentOn(s));
    case PendingWalk(Some(u)) =>
      var s1 := Push(Pop(s), PendingWalk(Behind(s.inactive, u)));
      UnderCancel(s1, u);
      UnderTop(s, s1, WentOn(s));
    case KillActive =>
      if s.active == [] {
        UnderSame(s, WentOn(s));
      } else {
        UnderKill(s, s.active[0]);
        UnderTop(s, s, WentOn(s));
      }
    case _ => UnderSame(s, WentOn(s));
  }

  lemma UnderPushed(s: State, s': State)
    requires s.stack != [] && |s'.stack| == |s.stack| && s'.stack[1..] == s.stack[1..]
    ensures Under(s, s', |s.stack| - 1)
  {
    forall p: nat | p < |s.stack| - 1 ensures At(s', p) == At(s, p) {
      assert s'.stack[1..][|s.stack| - 2 - p] == s.stack[1..][|s.stack| - 2 - p];
    }
  }

  // ---------- runqueue_kill kills

  /** The loop of a call of runqueue_kill that is at p frames from the bottom goes on. */
  predicate Kills(s: State, p: nat) {
    p < |s.stack| && At(s, p) == KillActive
  }

  lemma KillsStep(s: State, a: Action, p: nat)
    requires Enabled(s, a) && Kills(s, p)
    ensures Kills(Apply(s, a), p) || s.active == []
  {
    UnderStep(s, a);
    hide Apply, Under;
    if a.GoOn? && p == |s.stack| - 1 {
      if s.active != [] { KillsOn(s); }
    } else {
      UnderAt(s, Apply(s, a), if a.GoOn? then |s.stack| - 1 else |s.stack|, p);
    }
  }

  lemma UnderAt(s: State, s': State, n: nat, p: nat)
    requires n <= |s.stack| && Under(s, s', n) && p < n && !IsWalk(At(s, p))
    ensures p < |s'.stack| && At(s', p) == At(s, p)
  {
  }

  lemma KillsOn(s: State)
    requires Enabled(s, GoOn) && s.stack[0] == KillActive && s.active != []
    ensures Kills(Apply(s, GoOn), |s.stack| - 1)
  {
    hide Kill;
    UnderKill(s, s.active[0]);
  }

  /** In every run: the loop of runqueue_kill is left only when no task is active. */
  lemma LoopEndsEmpty(max: nat, emptyCb: bool, run: seq<State>, acts: seq<Action>, i: nat, p: nat)
    requires IsRun(max, emptyCb, run, acts) && i < |acts| && Kills(run[i], p) && !Kills(run[i+1], p)
    ensures run[i].active == []
  {
    hide Enabled, Apply, Kills;
    assert Leads(run[i], acts[i], run[i+1]);
    KillsStep(run[i], acts[i], p);
  }

  predicate Queued(s: State, t: Id) {
    t in s.tasks && s.tasks[t].queued
  }

  /** An active task stays so until it is not queued. */
  ghost predicate Stays(s: State, s': State, t: Id) {
    t in s.active && Queued(s', t) ==> t in s'.active
  }

  lemma StaysRemoved(s: State, u: Id, t: Id)
    requires NoRepeats(s.active) && u in s.tasks
    ensures Stays(s, Removed(s, u), t) && Stays(s, Complete(s, u), t)
  {
    hide AllMoved, Without, NoRepeats;
    WithoutFacts(s.active, u);
  }

  lemma StaysCancelled(s: State, u: Id, t: Id)
    requires NoRepeats(s.active) && u in s.tasks
    ensures Stays(s, Cancel(s, u), t) && Stays(s, Kill(s, u), t)
  {
    hide Complete, NoRepeats;
    StaysRemoved(s, u, t);
    StaysRemoved(Push(s, AfterKill(s.tasks[u].running)), u, t);
  }

  lemma StaysStarted(s: State, t: Id)
    requires s.inactive != [] ==> s.inactive[0] in s.tasks
    ensures Stays(s, Turn(s), t)
  {
    hide AllMoved;
  }

  lemma StaysActive(s: State, a: Action, t: Id)
    requires NoRepeats(s.active) && Enabled(s, a)
    ensures Stays(s, Apply(s, a), t)
  {
    hide Complete, Cancel, Kill, Turn, NoRepeats, Stays;
    match a
    case TaskComplete(u) => StaysRemoved(s, u, t);
    case TaskCancel(u) => StaysCancelled(s, u, t);
    case TaskKill(u) => StaysCancelled(s, u, t);
    case TimerFires =>
      StaysSame(s, s.(timer := Off), t);
      if s.timer == Start {
        StaysStarted(s.(timer := Off), t);
        SameActive(s, s.(timer := Off), Turn(s.(timer := Off)), t);
      }
    case GoOn => StaysGoOn(s, t);
    case TaskAdd(u, running, first) => StaysAdded(s, u, running, first, t);
    case _ => StaysSame(s, Apply(s, a), t);
  }

  lemma StaysAdded(s: State, u: Id, running: bool, first: bool, t: Id)
    ensures Stays(s, Add(s, u, running, first), t)
  {
  }

  lemma StaysSame(s: State, s': State, t: Id)
    requires s'.active == s.active
    ensures Stays(s, s', t)
  {
  }

  lemma SameActive(s: State, s1: State, s': State, t: Id)
    requires s1.active == s.active && Stays(s1, s', t)
    ensures Stays(s, s', t)
  {
  }

  lemma StaysGoOn(s: State, t: Id)
    requires NoRepeats(s.active) && Enabled(s, GoOn)
    ensures Stays(s, WentOn(s), t)
  {
    hide Complete, Cancel, Kill, Turn, NoRepeats, Stays, Behind, First;
    match s.stack[0]
    case Loop =>
      StaysStarted(Pop(s), t);
      SameActive(s, Pop(s), WentOn(s), t);
    case ActiveWalk(Some(u)) =>
      var s1 := Push(Pop(s), ActiveWalk(Behind(s.active, u)));
      StaysCancelled(s1, u, t);
      SameActive(s, s1, WentOn(s), t);
    case PendingWalk(Some(u)) =>
      var s1 := Push(Pop(s), PendingWalk(Behind(s.inactive, u)));
      StaysCancelled(s1, u, t);
      SameActive(s, s1, WentOn(s), t);
    case KillActive =>
      if s.active == [] { StaysSame(s, WentOn(s), t); } else { StaysCancelled(s, s.active[0], t); }
    case _ => StaysSame(s, WentOn(s), t);
  }

  lemma {:induction false} StillActive(max: nat, emptyCb: bool, run: seq<State>, acts: seq<Action>, i: nat, k: nat,
      t: Id)
    requires IsRun(max, emptyCb, run, acts) && i <= k < |run| && t in run[i].active
    requires forall m :: i < m <= k ==> Queued(run[m], t)
    ensures t in run[k].active
  {
    hide Enabled, Apply, Queued, WalksOk, KillsOk, NoRepeats;
    if i < k {
      StillActive(max, emptyCb, run, acts, i, k - 1, t);
      RunsKeep(max, emptyCb, run, acts, k - 1);
      assert Leads(run[k-1], acts[k-1], run[k]);
      StaysActive(run[k-1], acts[k-1], t);
    }
  }

  lemma {:induction false} StillKills(max: nat, emptyCb: bool, run: seq<State>, acts: seq<Action>, i: nat, k: nat,
      p: nat)
    requires IsRun(max, emptyCb, run, acts) && i <= k < |run| && Kills(run[i], p)
    requires forall m :: i <= m < k ==> run[m].active != []
    ensures Kills(run[k], p)
  {
    hide Enabled, Apply, Kills;
    if i < k {
      StillKills(max, emptyCb, run, acts, i, k - 1, p);
      assert Leads(run[k-1], acts[k-1], run[k]);
      KillsStep(run[k-1], acts[k-1], p);
    }
  }

  /** In every run: when a call of runqueue_kill has come to its last line, or further, each task that was active when
      it was called has not been queued in some state since. */
  lemma KillEmpties(max: nat, emptyCb: bool, run: seq<State>, acts: seq<Action>, i: nat, j: nat, t: Id)
    requires IsRun(max, emptyCb, run, acts) && i < j < |run| && acts[i].QueueKill? && t in run[i].active
    requires |run[j].stack| <= |run[i].stack| + 1
    ensures exists k :: i < k <= j && !Queued(run[k], t)
  {
    hide Leads, Kills, Queued, Inv;
    if forall k :: i < k <= j ==> Queued(run[k], t) {
      var p := |run[i].stack| + 2;
      Called(max, emptyCb, run, acts, i, p);
      forall m | i <= m <= j ensures t in run[m].active && run[m].active != [] {
        StillActive(max, emptyCb, run, acts, i, m, t);
      }
      StillKills(max, emptyCb, run, acts, i + 1, j, p);
      NotKills(run[j], p);
      assert false;
    }
  }

  lemma Called(max: nat, emptyCb: bool, run: seq<State>, acts: seq<Action>, i: nat, p: nat)
    requires IsRun(max, emptyCb, run, acts) && i < |acts| && acts[i].QueueKill? && p == |run[i].stack| + 2
    ensures Kills(run[i+1], p)
  {
    hide Enabled, Apply, Kills;
    assert Leads(run[i], acts[i], run[i+1]);
    CallsKill(run[i], acts[i], run[i+1], p);
  }

  lemma NotKills(s: State, p: nat)
    requires |s.stack| <= p
    ensures !Kills(s, p)
  {
  }

  lemma CallsKill(s: State, a: Action, s': State, p: nat)
    requires Leads(s, a, s') && a.QueueKill? && p == |s.stack| + 2
    ensures Kills(s', p) && s'.active == s.active
  {
  }

  // ---------- what the calls do to a task

  /** t is in no list any more, the others are as they were, and the complete callback is called. */
  ghost predicate Gone(s: State, s': State, t: Id) {
    && t in s.tasks && s'.tasks.Keys == s.tasks.Keys && s'.tasks[t] == Task(false, false, false, s.tasks[t].runnable)
    && (forall u :: u in s.tasks && u != t ==> s'.tasks[u] == s.tasks[u])
    && (forall a, b :: s.active == a + [t] + b && t !in a ==> s'.active == a + b)
    && (forall a, b :: s.inactive == a + [t] + b && t !in a ==> s'.inactive == a + b)
    && (t !in s.active ==> s'.active == s.active) && (t !in s.inactive ==> s'.inactive == s.inactive)
    && s'.stack != [] && s'.stack[0] == AfterComplete
  }

  lemma {:induction false} WithoutSplit(q: seq<Id>, t: Id, a: seq<Id>, b: seq<Id>)
    requires q == a + [t] + b && t !in a
    ensures Without(q, t) == a + b
  {
    if a == [] {
      assert q[0] == t && q[1..] == b;
    } else {
      assert q[0] == a[0] && q[1..] == a[1..] + [t] + b;
      WithoutSplit(q[1..], t, a[1..], b);
      assert [a[0]] + (a[1..] + b) == a + b;
    }
  }

  lemma CompleteGone(s: State, t: Id)
    requires Queued(s, t)
    ensures Gone(s, Complete(s, t), t)
  {
    hide AllMoved, Without;
    var s' := Complete(s, t);
    forall a, b | s.active == a + [t] + b && t !in a ensures s'.active == a + b {
      WithoutSplit(s.active, t, a, b);
    }
    forall a, b | s.inactive == a + [t] + b && t !in a ensures s'.inactive == a + b {
      WithoutSplit(s.inactive, t, a, b);
    }
  }

  lemma NothingDone(s: State, t: Id)
    requires t in s.tasks && !Queued(s, t)
    ensures Complete(s, t) == Cancel(s, t) == Kill(s, t) == s
  {
  }

  lemma GoneFrom(s: State, s1: State, s': State, t: Id)
    requires s1.tasks == s.tasks && s1.active == s.active && s1.inactive == s.inactive && Gone(s1, s', t)
    ensures Gone(s, s', t)
  {
  }

  /** In every run: completing a task and killing it take it out, and so does cancelling it before it runs; a running
      task is only marked by that, and its cancel callback is called. On a task that is not queued they do nothing. */
  lemma TaskCalls(max: nat, emptyCb: bool, run: seq<State>, acts: seq<Action>, i: nat, t: Id)
    requires IsRun(max, emptyCb, run, acts) && i < |acts|
    requires acts[i] == TaskComplete(t) || acts[i] == TaskKill(t) || acts[i] == TaskCancel(t)
    ensures var s, s' := run[i], run[i+1];
      if !Queued(s, t) then s' == s
      else if acts[i].TaskCancel? && t in s.active then
        && s'.tasks == s.tasks[t := s.tasks[t].(cancelled := true)] && s'.active == s.active
        && s'.inactive == s.inactive
        && s'.stack != [] && s'.stack[0] == AfterCancel
      else Gone(s, s', t)
  {
    hide Gone, Complete, WalksOk, KillsOk, NoRepeats;
    var s := run[i];
    RunsKeep(max, emptyCb, run, acts, i);
    assert Leads(s, acts[i], run[i+1]);
    assert t in s.tasks;
    if Queued(s, t) {
      assert s.tasks[t].running <==> t in s.active;
      CompleteGone(s, t);
      var s1 := Push(s, AfterKill(s.tasks[t].running));
      CompleteGone(s1, t);
      GoneFrom(s, s1, Complete(s1, t), t);
    } else {
      NothingDone(s, t);
    }
  }

  /** In every run: adding a task that is not queued, and that can run or runs already, puts it in front of the list it
      belongs to, or behind, and has the timer set. Adding any other does nothing. */
  lemma AddPlaces(max: nat, emptyCb: bool, run: seq<State>, acts: seq<Action>, i: nat, t: Id, running: bool,
      first: bool)
    requires IsRun(max, emptyCb, run, acts) && i < |acts| && acts[i] == TaskAdd(t, running, first)
    ensures var s, s' := run[i], run[i+1];
      if Queued(s, t) || !(running || s.tasks[t].runnable) then s' == s
      else
        && s'.tasks == s.tasks[t := Task(true, running, false, s.tasks[t].runnable)]
        && s'.active == (if !running then s.active else if first then [t] + s.active else s.active + [t])
        && s'.inactive == (if running then s.inactive else if first then [t] + s.inactive else s.inactive + [t])
        && s'.runningTasks == |s'.active| && !s'.empty && s'.timer == Start && s'.stack == s.stack
  {
    hide WalksOk, KillsOk, NoRepeats;
    RunsKeep(max, emptyCb, run, acts, i);
    RunsKeep(max, emptyCb, run, acts, i + 1);
    assert Leads(run[i], acts[i], run[i+1]);
  }

  /** In every run: when the timer that is to start something fires, or a run callback returns, the first task that
      waits is started and its run callback called, if the queue is not stopped and the limit not reached. When nothing
      is left, the queue is empty from then on, and the timer set for the callback that tells. */
  lemma FiringStarts(max: nat, emptyCb: bool, run: seq<State>, acts: seq<Action>, i: nat)
    requires IsRun(max, emptyCb, run, acts) && i < |acts|
    requires (acts[i].TimerFires? && run[i].timer == Start)
      || (acts[i].GoOn? && run[i].stack != [] && run[i].stack[0].Loop?)
    ensures var s, s' := run[i], run[i+1];
      && (!s.stopped && s.inactive != [] && (max == 0 || |s.active| < max) ==>
            && s'.active == s.active + [s.inactive[0]] && s'.inactive == s.inactive[1..]
            && s'.tasks[s.inactive[0]].running && s'.stack != [] && s'.stack[0] == Loop)
      && (s.active == [] && s.inactive == [] ==> s'.empty && (!s.empty && emptyCb ==> s'.timer == Empty))
  {
    hide WalksOk, KillsOk, NoRepeats, AllMoved;
    RunsKeep(max, emptyCb, run, acts, i);
    assert Leads(run[i], acts[i], run[i+1]);
    LimitStays(max, emptyCb, run, acts, i);
  }

  lemma {:induction false} LimitStays(max: nat, emptyCb: bool, run: seq<State>, acts: seq<Action>, i: nat)
    requires IsRun(max, emptyCb, run, acts) && i < |run|
    ensures run[i].max == max && run[i].emptyCb == emptyCb
  {
    hide Enabled, Apply;
    if i > 0 {
      LimitStays(max, emptyCb, run, acts, i - 1);
      assert Leads(run[i-1], acts[i-1], run[i]);
      SameLimit(run[i-1], acts[i-1]);
    }
  }

  lemma SameLimit(s: State, a: Action)
    requires Enabled(s, a)
    ensures Apply(s, a).max == s.max && Apply(s, a).emptyCb == s.emptyCb
  {
    hide Complete, Cancel, Kill, Turn, Behind, First;
    match a
    case TaskComplete(t) => SameLimitOf(s, t);
    case TaskCancel(t) => SameLimitOf(s, t);
    case TaskKill(t) => SameLimitOf(s, t);
    case TimerFires => if s.timer == Start { SameLimitTurn(s.(timer := Off)); }
    case GoOn => SameLimitOn(s);
    case _ =>
  }

  lemma SameLimitOf(s: State, t: Id)
    requires t in s.tasks
    ensures forall s' :: s' == Complete(s, t) || s' == Cancel(s, t) || s' == Kill(s, t) ==>
      s'.max == s.max && s'.emptyCb == s.emptyCb
  {
    hide AllMoved, Without;
  }

  lemma SameLimitTurn(s: State)
    requires s.inactive != [] ==> s.inactive[0] in s.tasks
    ensures Turn(s).max == s.max && Turn(s).emptyCb == s.emptyCb
  {
    hide AllMoved;
  }

  lemma SameLimitOn(s: State)
    requires Enabled(s, GoOn)
    ensures WentOn(s).max == s.max && WentOn(s).emptyCb == s.emptyCb
  {
    hide Complete, Cancel, Kill, Turn, Behind, First;
    match s.stack[0]
    case Loop => SameLimitTurn(Pop(s));
    case ActiveWalk(Some(u)) => SameLimitOf(Push(Pop(s), ActiveWalk(Behind(s.active, u))), u);
    case PendingWalk(Some(u)) => SameLimitOf(Push(Pop(s), PendingWalk(Behind(s.inactive, u))), u);
    case KillActive => if s.active != [] { SameLimitOf(s, s.active[0]); }
    case _ =>
  }

  /** In every run: a task only leaves the queue with its complete callback called. */
  lemma LeavesByCallback(max: nat, emptyCb: bool, run: seq<State>, acts: seq<Action>, i: nat, t: Id)
    requires IsRun(max, emptyCb, run, acts) && i < |acts| && Queued(run[i], t) && !Queued(run[i+1], t)
    ensures run[i+1].stack != [] && run[i+1].stack[0] == AfterComplete
  {
    hide Enabled, Apply;
    assert Leads(run[i], acts[i], run[i+1]);
    LeavesStep(run[i], acts[i], t);
  }

  ghost predicate Leaves(s: State, s': State, t: Id) {
    Queued(s, t) && !Queued(s', t) ==> s'.stack != [] && s'.stack[0] == AfterComplete
  }

  lemma LeavesCancelled(s: State, u: Id, t: Id)
    requires u in s.tasks
    ensures Leaves(s, Complete(s, u), t) && Leaves(s, Cancel(s, u), t) && Leaves(s, Kill(s, u), t)
  {
    hide AllMoved, Without;
  }

  lemma LeavesSame(s: State, s1: State, s': State, t: Id)
    requires s1.tasks == s.tasks && Leaves(s1, s', t)
    ensures Leaves(s, s', t)
  {
  }

  lemma LeavesNone(s: State, s': State, t: Id)
    requires forall u :: u in s.tasks ==> u in s'.tasks && s'.tasks[u].queued == s.tasks[u].queued
    ensures Leaves(s, s', t)
  {
  }

  lemma LeavesTurn(s: State, t: Id)
    requires s.inactive != [] ==> s.inactive[0] in s.tasks
    ensures Leaves(s, Turn(s), t)
  {
    hide AllMoved;
  }

  lemma LeavesStep(s: State, a: Action, t: Id)
    requires Enabled(s, a)
    ensures Leaves(s, Apply(s, a), t)
  {
    hide Complete, Cancel, Kill, Turn, Leaves;
    match a
    case TaskComplete(u) => LeavesCancelled(s, u, t);
    case TaskCancel(u) => LeavesCancelled(s, u, t);
    case TaskKill(u) => LeavesCancelled(s, u, t);
    case TaskAdd(u, running, first) => LeavesAdded(s, u, running, first, t);
    case TimerFires =>
      var s1 := s.(timer := Off);
      if s.timer == Start {
        LeavesTurn(s1, t);
        LeavesSame(s, s1, Turn(s1), t);
      } else {
        LeavesNone(s, s1, t);
      }
    case GoOn => LeavesGoOn(s, t);
    case _ => LeavesNone(s, Apply(s, a), t);
  }

  lemma LeavesAdded(s: State, u: Id, running: bool, first: bool, t: Id)
    ensures Leaves(s, Add(s, u, running, first), t)
  {
  }

  lemma LeavesGoOn(s: State, t: Id)
    requires Enabled(s, GoOn)
    ensures Leaves(s, WentOn(s), t)
  {
    hide Complete, Cancel, Kill, Turn, Leaves, Behind, First;
    match s.stack[0]
    case Loop =>
      LeavesTurn(Pop(s), t);
      LeavesSame(s, Pop(s), WentOn(s), t);
    case ActiveWalk(Some(u)) =>
      var s1 := Push(Pop(s), ActiveWalk(Behind(s.active, u)));
      LeavesCancelled(s1, u, t);
      LeavesSame(s, s1, WentOn(s), t);
    case PendingWalk(Some(u)) =>
      var s1 := Push(Pop(s), PendingWalk(Behind(s.inactive, u)));
      LeavesCancelled(s1, u, t);
      LeavesSame(s, s1, WentOn(s), t);
    case KillActive =>
      if s.active == [] { LeavesNone(s, WentOn(s), t); } else { LeavesCancelled(s, s.active[0], t); }
    case _ => LeavesNone(s, WentOn(s), t);
  }

  // ---------- everything that is called ends, if the callbacks do no more

  /** How many tasks are left from one on */
  function Left(q: seq<Id>, next: Option<Id>): nat {
    if q == [] || next.None? then 0 else if q[0] == next.value then |q| else Left(q[1..], next)
  }

  function Weight(f: Frame, active: seq<Id>, inactive: seq<Id>): nat {
    match f
    case Active => 2 * |active| + 2
    case Pending => 2 * |inactive| + 2
    case ActiveWalk(next) => 2 * Left(active, next) + 1
    case PendingWalk(next) => 2 * Left(inactive, next) + 1
    case _ => 1
  }

  function Weights(stack: seq<Frame>, active: seq<Id>, inactive: seq<Id>): nat {
    if stack == [] then 0 else Weight(stack[0], active, inactive) + Weights(stack[1..], active, inactive)
  }

  lemma {:induction false} LeftBehindIt(q: seq<Id>, t: Id)
    requires NoRepeats(q) && t in q
    ensures Left(q, Behind(q, t)) + 1 == Left(q, Some(t))
  {
    if q[0] == t {
      LeftFirst(q[1..]);
      if q[1..] != [] { assert q[1] != q[0] && q[1..][0] == q[1]; }
    } else {
      assert NoRepeats(q[1..]) && q[0] !in q[1..];
      BehindIn(q[1..], t);
      LeftBehindIt(q[1..], t);
    }
  }

  lemma LeftFirst(q: seq<Id>)
    ensures Left(q, First(q)) == |q|
  {
  }

  predicate Lighter(s: State, s': State) {
    || |s'.inactive| < |s.inactive|
    || (|s'.inactive| == |s.inactive| && |s'.active| < |s.active|)
    || (s'.inactive == s.inactive && s'.active == s.active
        && Weights(s'.stack, s.active, s.inactive) < Weights(s.stack, s.active, s.inactive))
  }

  lemma LighterTop(s: State, fs: seq<Frame>, s': State)
    requires s.stack != [] && s'.inactive == s.inactive && s'.active == s.active && s'.stack == fs + s.stack[1..]
    requires |fs| <= 2 && Weights(fs, s.active, s.inactive) < Weight(s.stack[0], s.active, s.inactive)
    ensures Lighter(s, s')
  {
    var rest := s.stack[1..];
    if |fs| == 2 {
      assert s'.stack[1..] == fs[1..] + rest && (fs[1..] + rest)[1..] == rest && fs[1..][1..] == [];
    } else if |fs| == 1 {
      assert s'.stack[1..] == rest && fs[1..] == [];
    } else {
      assert s'.stack == rest;
    }
  }

  lemma GoesOn(s: State)
    requires Inv(s) && Enabled(s, GoOn)
    ensures Lighter(s, WentOn(s))
  {
    hide WalksOk, KillsOk, Lighter, Weights, Behind, First, Left;
    var s' := WentOn(s);
    match s.stack[0]
    case Loop => GoesOnLoop(s);
    case Active =>
      LeftFirst(s.active);
      OneWeight(ActiveWalk(First(s.active)), s.active, s.inactive);
      LighterTop(s, [ActiveWalk(First(s.active))], s');
    case Pending =>
      LeftFirst(s.inactive);
      OneWeight(PendingWalk(First(s.inactive)), s.active, s.inactive);
      LighterTop(s, [PendingWalk(First(s.inactive))], s');
    case ActiveWalk(Some(u)) => GoesOnActive(s, u);
    case PendingWalk(Some(u)) => GoesOnPending(s, u);
    case KillActive =>
      if s.active == [] { GoesOnPopped(s, s'); } else { GoesOnKill(s); }
    case _ => GoesOnPopped(s, s');
  }

  lemma OneWeight(f: Frame, active: seq<Id>, inactive: seq<Id>)
    ensures Weights([f], active, inactive) == Weight(f, active, inactive)
  {
    assert [f][1..] == [];
  }

  lemma GoesOnPopped(s: State, s': State)
    requires s.stack != [] && s'.stack == s.stack[1..] && s'.active == s.active && s'.inactive == s.inactive
    ensures Lighter(s, s')
  {
    assert s'.stack == [] + s.stack[1..];
    LighterTop(s, [], s');
  }

  lemma GoesOnLoop(s: State)
    requires Inv(s) && Enabled(s, GoOn) && s.stack[0].Loop?
    ensures Lighter(s, WentOn(s))
  {
    hide Weights, WalksOk, KillsOk, NoRepeats, AllMoved;
    if !CanStart(Pop(s)) { GoesOnPopped(s, WentOn(s)); }
  }

  lemma GoesOnActive(s: State, u: Id)
    requires Inv(s) && Enabled(s, GoOn) && s.stack[0] == ActiveWalk(Some(u))
    ensures Lighter(s, WentOn(s))
  {
    hide KillsOk, Lighter, Behind, Left, NoRepeats;
    assert AtTask(s.stack[0], s.active, s.inactive);
    var f := ActiveWalk(Behind(s.active, u));
    LeftBehindIt(s.active, u);
    TwoWeights(AfterCancel, f, s.active, s.inactive);
    assert WentOn(s).stack == [AfterCancel, f] + s.stack[1..];
    LighterTop(s, [AfterCancel, f], WentOn(s));
  }

  lemma TwoWeights(f: Frame, g: Frame, active: seq<Id>, inactive: seq<Id>)
    ensures Weights([f, g], active, inactive) == Weight(f, active, inactive) + Weight(g, active, inactive)
  {
    assert [f, g][1..] == [g];
    OneWeight(g, active, inactive);
  }

  lemma GoesOnPending(s: State, u: Id)
    requires Inv(s) && Enabled(s, GoOn) && s.stack[0] == PendingWalk(Some(u))
    ensures Lighter(s, WentOn(s))
  {
    hide KillsOk, Behind, Weights, AllMoved, NoRepeats, Without;
    assert AtTask(s.stack[0], s.active, s.inactive);
    WithoutFacts(s.inactive, u);
  }

  lemma GoesOnKill(s: State)
    requires Inv(s) && Enabled(s, GoOn) && s.stack[0] == KillActive && s.active != []
    ensures Lighter(s, WentOn(s))
  {
    hide KillsOk, WalksOk, Weights, AllMoved, NoRepeats, Without;
    var u := s.active[0];
    assert u in s.active && s.tasks[u].running && s.tasks[u].queued;
    assert u !in s.inactive;
    WithoutFacts(s.active, u);
  }

  /** Every run can go on, with callbacks that do nothing, until nothing is left to do. */
  lemma {:induction false} QuietEnds(max: nat, emptyCb: bool, run: seq<State>, acts: seq<Action>)
    returns (run': seq<State>, acts': seq<Action>)
    requires IsRun(max, emptyCb, run, acts)
    ensures IsRun(max, emptyCb, run', acts') && run <= run' && acts <= acts'
    ensures (forall k :: |acts| <= k < |acts'| ==> acts'[k] == GoOn) && run'[|acts'|].stack == []
    decreases |run[|acts|].inactive|, |run[|acts|].active|,
      Weights(run[|acts|].stack, run[|acts|].active, run[|acts|].inactive)
  {
    hide Leads, Inv, WentOn, Weights;
    var s := run[|acts|];
    RunsKeep(max, emptyCb, run, acts, |acts|);
    if s.stack == [] {
      run', acts' := run, acts;
    } else {
      CanGoOn(s);
      GoesOn(s);
      run', acts' := OneMore(max, emptyCb, run, acts, GoOn);
      run', acts' := QuietEnds(max, emptyCb, run', acts');
    }
  }

  lemma CanGoOn(s: State)
    requires Inv(s) && s.stack != []
    ensures Enabled(s, GoOn)
  {
    hide KillsOk, NoRepeats;
    assert AtTask(s.stack[0], s.active, s.inactive);
  }

  lemma OneMore(max: nat, emptyCb: bool, run: seq<State>, acts: seq<Action>, a: Action)
    returns (run': seq<State>, acts': seq<Action>)
    requires IsRun(max, emptyCb, run, acts) && Enabled(run[|acts|], a)
    ensures IsRun(max, emptyCb, run', acts') && run' == run + [Apply(run[|acts|], a)] && acts' == acts + [a]
  {
    hide Enabled, Apply, Init;
    run', acts' := run + [Apply(run[|acts|], a)], acts + [a];
    forall i | 0 <= i < |acts'| ensures Leads(run'[i], acts'[i], run'[i+1]) {
      if i < |acts| { assert Leads(run[i], acts[i], run[i+1]); }
    }
  }

  // ---------- a walk visits all that was there

  /** The tasks from one on */
  function Ahead(q: seq<Id>, next: Option<Id>): seq<Id> {
    if q == [] || next.None? then [] else if q[0] == next.value then q else Ahead(q[1..], next)
  }

  function ListOf(s: State, running: bool): seq<Id> {
    if running then s.active else s.inactive
  }

  /** The walk p frames from the bottom, over the running or the waiting tasks, has not begun, or t is still ahead. */
  predicate Due(s: State, running: bool, p: nat, t: Id) {
    p < |s.stack| && DueIn(At(s, p), s.active, s.inactive, running, t)
  }

  predicate DueIn(f: Frame, active: seq<Id>, inactive: seq<Id>, running: bool, t: Id) {
    if running then f.Active? || (f.ActiveWalk? && t in Ahead(active, f.next))
    else f.Pending? || (f.PendingWalk? && t in Ahead(inactive, f.next))
  }

  lemma {:induction false} AheadRemoved(q: seq<Id>, next: Option<Id>, u: Id, t: Id)
    requires NoRepeats(q) && t in Ahead(q, next) && t != u
    ensures t in Ahead(Without(q, u), if next == Some(u) then Behind(q, u) else next)
  {
    var n := if next == Some(u) then Behind(q, u) else next;
    assert NoRepeats(q[1..]) && q[0] !in q[1..];
    if q[0] == u {
      if next == Some(u) {
        assert q == [u] + q[1..] && t in q[1..];
        AheadFirst(q[1..]);
      }
    } else {
      var w := [q[0]] + Without(q[1..], u);
      assert w == Without(q, u) && w[1..] == Without(q[1..], u);
      if next == Some(q[0]) {
        assert n == next && Ahead(w, n) == w;
        WithoutFacts(q, u);
        AheadFirst(q);
      } else {
        AheadRemoved(q[1..], next, u, t);
        BehindIn(q[1..], u);
        assert n != Some(q[0]) by { if next == Some(u) { AheadIn(q[1..], next, t); } }
      }
    }
  }

  lemma AheadFirst(q: seq<Id>)
    ensures Ahead(q, First(q)) == q
  {
  }

  lemma {:induction false} AheadIn(q: seq<Id>, next: Option<Id>, t: Id)
    requires t in Ahead(q, next)
    ensures t in q && next.Some? && next.value in q
  {
    if q[0] != next.value { AheadIn(q[1..], next, t); }
  }

  lemma {:induction false} AheadNext(q: seq<Id>, u: Id, t: Id)
    requires NoRepeats(q) && t in Ahead(q, Some(u)) && t != u
    ensures t in Ahead(q, Behind(q, u))
  {
    assert NoRepeats(q[1..]) && q[0] !in q[1..];
    if q[0] == u {
      assert q == [u] + q[1..] && t in q[1..];
      AheadFirst(q[1..]);
    } else {
      AheadNext(q[1..], u, t);
      BehindIn(q[1..], u);
    }
  }

  lemma {:induction false} AheadAdded(q: seq<Id>, next: Option<Id>, u: Id, t: Id)
    requires t in Ahead(q, next) && u !in q
    ensures t in Ahead(q + [u], next) && t in Ahead([u] + q, next)
  {
    AheadIn(q, next, t);
    assert ([u] + q)[1..] == q;
    AheadBehind(q, next, u, t);
  }

  lemma {:induction false} AheadBehind(q: seq<Id>, next: Option<Id>, u: Id, t: Id)
    requires t in Ahead(q, next)
    ensures t in Ahead(q + [u], next)
  {
    if q[0] != next.value {
      assert (q + [u])[0] == q[0] && (q + [u])[1..] == q[1..] + [u];
      AheadBehind(q[1..], next, u, t);
    } else {
      assert (q + [u])[0] == q[0];
    }
  }

  lemma DueRemoved(s: State, u: Id, running: bool, p: nat, t: Id)
    requires NoRepeats(s.active) && NoRepeats(s.inactive) && u in s.tasks && t != u && Due(s, running, p, t)
    ensures Due(Removed(s, u), running, p, t)
  {
    hide NoRepeats, Ahead, Without, Behind;
    var f := At(s, p);
    assert At(Removed(s, u), p) == Moved(f, u, s.active, s.inactive);
    if f.ActiveWalk? && running { AheadRemoved(s.active, f.next, u, t); }
    if f.PendingWalk? && !running { AheadRemoved(s.inactive, f.next, u, t); }
  }

  lemma DuePush(s: State, f: Frame, running: bool, p: nat, t: Id)
    requires Due(s, running, p, t)
    ensures Due(Push(s, f), running, p, t)
  {
    hide DueIn;
    assert At(Push(s, f), p) == At(s, p);
  }

  lemma DuePop(s: State, running: bool, p: nat, t: Id)
    requires Due(s, running, p, t) && p < |s.stack| - 1
    ensures Due(Pop(s), running, p, t)
  {
    hide DueIn;
    assert At(Pop(s), p) == At(s, p);
  }

  lemma DueSame(s: State, s': State, running: bool, p: nat, t: Id)
    requires Due(s, running, p, t) && s'.stack == s.stack && s'.active == s.active && s'.inactive == s.inactive
    ensures Due(s', running, p, t)
  {
  }

  lemma DueAdd(s: State, u: Id, first: bool, now: bool, running: bool, p: nat, t: Id)
    requires ListsOk(s) && Due(s, running, p, t)
    ensures Due(Add(s, u, now, first), running, p, t)
  {
    hide Ahead, NoRepeats;
    var f := At(s, p);
    if Adds(s, u, now) {
      assert u !in s.active && u !in s.inactive;
      if f.ActiveWalk? && running { AheadAdded(s.active, f.next, u, t); }
      if f.PendingWalk? && !running { AheadAdded(s.inactive, f.next, u, t); }
    }
  }

  lemma DueStarted(s: State, running: bool, p: nat, t: Id)
    requires ListsOk(s) && Due(s, running, p, t) && s.inactive != [] && s.inactive[0] in s.tasks
      && (running || t != s.inactive[0])
    ensures Due(Started(s), running, p, t)
  {
    hide Ahead, NoRepeats, Without, Behind;
    var f, u := At(s, p), s.inactive[0];
    StartedLists(s);
    ListsDiffer(s);
    assert At(Started(s), p) == Moved(f, u, s.active, s.inactive);
    if f.ActiveWalk? && running {
      AheadAdded(s.active, f.next, u, t);
      AheadIn(s.active, f.next, t);
    }
    if f.PendingWalk? && !running { AheadRemoved(s.inactive, f.next, u, t); }
  }

  lemma ListsDiffer(s: State)
    requires ListsOk(s)
    ensures NoRepeats(s.active) && NoRepeats(s.inactive)
  {
  }

  lemma DueComplete(s: State, u: Id, running: bool, p: nat, t: Id)
    requires ListsOk(s) && u in s.tasks && Due(s, running, p, t) && t in ListOf(Complete(s, u), running)
    ensures Due(Complete(s, u), running, p, t)
  {
    hide Due, Removed, ListsOk;
    if s.tasks[u].queued {
      ListsDiffer(s);
      NotIn(s, u);
      DueRemoved(s, u, running, p, t);
      DuePush(Removed(s, u), AfterComplete, running, p, t);
    }
  }

  lemma NotIn(s: State, u: Id)
    requires NoRepeats(s.active) && NoRepeats(s.inactive) && u in s.tasks
    ensures u !in Removed(s, u).active && u !in Removed(s, u).inactive
  {
    WithoutFacts(s.active, u);
    WithoutFacts(s.inactive, u);
  }

  lemma DueCancel(s: State, u: Id, running: bool, p: nat, t: Id)
    requires ListsOk(s) && u in s.tasks && Due(s, running, p, t) && t in ListOf(Cancel(s, u), running)
    ensures Due(Cancel(s, u), running, p, t)
  {
    hide Due, Complete, ListsOk;
    if s.tasks[u].queued && s.tasks[u].running {
      var s1 := s.(tasks := s.tasks[u := s.tasks[u].(cancelled := true)]);
      DueSame(s, s1, running, p, t);
      DuePush(s1, AfterCancel, running, p, t);
    } else if s.tasks[u].queued {
      DueComplete(s, u, running, p, t);
    }
  }

  lemma DueKill(s: State, u: Id, running: bool, p: nat, t: Id)
    requires ListsOk(s) && u in s.tasks && Due(s, running, p, t) && t in ListOf(Kill(s, u), running)
    ensures Due(Kill(s, u), running, p, t)
  {
    hide Due, Complete;
    if s.tasks[u].queued {
      var s1 := Push(s, AfterKill(s.tasks[u].running));
      ListsSame(s, s1);
      DuePush(s, AfterKill(s.tasks[u].running), running, p, t);
      DueComplete(s1, u, running, p, t);
    }
  }

  lemma DueTurn(s: State, running: bool, p: nat, t: Id)
    requires ListsOk(s) && (s.inactive != [] ==> s.inactive[0] in s.tasks) && Due(s, running, p, t)
      && t in ListOf(Turn(s), running)
    ensures Due(Turn(s), running, p, t)
  {
    hide Due, AllMoved, NoRepeats;
    if CanStart(s) {
      ListsDiffer(s);
      StartedLists(s);
      Only1(s.inactive);
      DueStarted(s, running, p, t);
      DuePush(Started(s), Loop, running, p, t);
    } else {
      DueSame(s, Turn(s), running, p, t);
    }
  }

  lemma Only1(q: seq<Id>)
    requires NoRepeats(q) && q != []
    ensures q[0] !in q[1..]
  {
  }

  lemma DueStep(s: State, a: Action, running: bool, p: nat, t: Id)
    requires Inv(s) && Enabled(s, a) && Due(s, running, p, t) && t in ListOf(s, running)
      && t in ListOf(Apply(s, a), running)
    requires running ==> t in s.tasks && t in Apply(s, a).tasks && !Apply(s, a).tasks[t].cancelled
    ensures Due(Apply(s, a), running, p, t)
  {
    hide Due, Complete, Cancel, Kill, Turn, Add, ListsOk, WalksOk, KillsOk, WentOn;
    match a
    case TaskAdd(u, now, first) => DueAdd(s, u, first, now, running, p, t);
    case TaskComplete(u) => DueComplete(s, u, running, p, t);
    case TaskCancel(u) => DueCancel(s, u, running, p, t);
    case TaskKill(u) => DueKill(s, u, running, p, t);
    case QueueCancelActive => DuePush(s, Active, running, p, t);
    case QueueCancelPending => DuePush(s, Pending, running, p, t);
    case QueueCancel =>
      DuePush(s, Active, running, p, t);
      DuePush(Push(s, Active), Pending, running, p, t);
    case QueueKill =>
      DuePush(s, CancelTimer, running, p, t);
      DuePush(Push(s, CancelTimer), Pending, running, p, t);
      DuePush(Push(Push(s, CancelTimer), Pending), KillActive, running, p, t);
    case TimerFires =>
      var s1 := s.(timer := Off);
      DueSame(s, s1, running, p, t);
      TimerLists(s);
      if s.timer == Start { DueTurn(s1, running, p, t); }
    case GoOn => DueGoOn(s, running, p, t);
    case _ => DueSame(s, Apply(s, a), running, p, t);
  }

  /** What is left to do goes on while the walk is further down. */
  lemma DueBelow(s: State, running: bool, p: nat, t: Id)
    requires Inv(s) && Enabled(s, GoOn) && Due(s, running, p, t) && t in ListOf(WentOn(s), running) && p < |s.stack| - 1
    ensures Due(WentOn(s), running, p, t)
  {
    hide Due, Complete, Cancel, Kill, Turn, WalksOk, KillsOk, NoRepeats, Behind, First;
    var s1 := Pop(s);
    DuePop(s, running, p, t);
    ListsSame(s, s1);
    match s.stack[0]
    case Loop => DueTurn(s1, running, p, t);
    case Active => DuePush(s1, ActiveWalk(First(s.active)), running, p, t);
    case Pending => DuePush(s1, PendingWalk(First(s.inactive)), running, p, t);
    case ActiveWalk(Some(u)) =>
      DuePush(s1, ActiveWalk(Behind(s.active, u)), running, p, t);
      ListsSame(s, Push(s1, ActiveWalk(Behind(s.active, u))));
      DueCancel(Push(s1, ActiveWalk(Behind(s.active, u))), u, running, p, t);
    case PendingWalk(Some(u)) =>
      DuePush(s1, PendingWalk(Behind(s.inactive, u)), running, p, t);
      ListsSame(s, Push(s1, PendingWalk(Behind(s.inactive, u))));
      DueCancel(Push(s1, PendingWalk(Behind(s.inactive, u))), u, running, p, t);
    case KillActive => if s.active != [] { DueKill(s, s.active[0], running, p, t); }
    case _ => DueSame(s1, WentOn(s), running, p, t);
  }

  /** The walk itself goes on: it does not pass t without cancelling it. */
  lemma DueAtTop(s: State, running: bool, t: Id)
    requires Inv(s) && Enabled(s, GoOn) && Due(s, running, |s.stack| - 1, t) && t in ListOf(s, running)
      && t in ListOf(WentOn(s), running)
    requires running ==> t in s.tasks && t in WentOn(s).tasks && !WentOn(s).tasks[t].cancelled
    ensures Due(WentOn(s), running, |s.stack| - 1, t)
  {
    hide WalksOk, KillsOk, NoRepeats, Behind, First, Ahead;
    var f, p := s.stack[0], |s.stack| - 1;
    assert At(s, p) == f;
    ListsDiffer(s);
    if running && f.Active? { AheadFirst(s.active); } else if !running && f.Pending? { AheadFirst(s.inactive); } else {
      AheadIn(ListOf(s, running), f.next, t);
      WalkPasses(s, running, t);
    }
  }

  lemma WalkPasses(s: State, running: bool, t: Id)
    requires Inv(s) && Enabled(s, GoOn) && t in ListOf(WentOn(s), running) && NoRepeats(ListOf(s, running))
    requires if running then s.stack[0].ActiveWalk? else s.stack[0].PendingWalk?
    requires s.stack[0].next.Some? && t in Ahead(ListOf(s, running), s.stack[0].next)
    requires running ==> t in s.tasks && t in WentOn(s).tasks && !WentOn(s).tasks[t].cancelled
    ensures Due(WentOn(s), running, |s.stack| - 1, t)
  {
    hide KillsOk, NoRepeats, Behind, First, Ahead, Complete, Due;
    var u, q := s.stack[0].next.value, ListOf(s, running);
    assert AtTask(s.stack[0], s.active, s.inactive);
    var g := if running then ActiveWalk(Behind(q, u)) else PendingWalk(Behind(q, u));
    var s1 := Push(Pop(s), g);
    ListsSame(s, s1);
    if t != u {
      AheadNext(q, u, t);
      DueTop(s1, running, t);
      DueCancel(s1, u, running, |s.stack| - 1, t);
    } else if !running {
      TakenOut(s1, u);
    }
  }

  lemma DueTop(s: State, running: bool, t: Id)
    requires s.stack != [] && DueIn(s.stack[0], s.active, s.inactive, running, t)
    ensures Due(s, running, |s.stack| - 1, t)
  {
  }

  lemma TakenOut(s: State, u: Id)
    requires ListsOk(s) && u in s.inactive
    ensures u !in Cancel(s, u).inactive
  {
    hide AllMoved;
    WithoutFacts(s.inactive, u);
  }

  lemma DueGoOn(s: State, running: bool, p: nat, t: Id)
    requires Inv(s) && Enabled(s, GoOn) && Due(s, running, p, t) && t in ListOf(s, running)
      && t in ListOf(WentOn(s), running)
    requires running ==> t in s.tasks && t in WentOn(s).tasks && !WentOn(s).tasks[t].cancelled
    ensures Due(WentOn(s), running, p, t)
  {
    hide Inv, WentOn, DueIn, Enabled;
    if p < |s.stack| - 1 { DueBelow(s, running, p, t); } else { DueAtTop(s, running, t); }
  }

  /** t is in the list, and not cancelled if it runs. */
  predicate Spared(s: State, running: bool, t: Id) {
    t in ListOf(s, running) && t in s.tasks && (running ==> !s.tasks[t].cancelled)
  }

  lemma {:induction false} StillDue(max: nat, emptyCb: bool, run: seq<State>, acts: seq<Action>, i: nat, k: nat,
      running: bool, p: nat, t: Id)
    requires IsRun(max, emptyCb, run, acts) && i <= k < |run| && Due(run[i], running, p, t)
    requires t in ListOf(run[i], running) && forall m :: i < m <= k ==> Spared(run[m], running, t)
    ensures Due(run[k], running, p, t) && t in ListOf(run[k], running)
  {
    hide Enabled, Apply, Due, Inv;
    if i < k {
      StillDue(max, emptyCb, run, acts, i, k - 1, running, p, t);
      RunsKeep(max, emptyCb, run, acts, k - 1);
      InTasks(run[k-1], running, t);
      assert Leads(run[k-1], acts[k-1], run[k]);
      DueStep(run[k-1], acts[k-1], running, p, t);
    }
  }

  lemma InTasks(s: State, running: bool, t: Id)
    requires Inv(s) && t in ListOf(s, running)
    ensures t in s.tasks
  {
  }

  /** In every run: when a walk over the active or the waiting tasks that is about to begin has come to its end, each
      task that was in its list then has left the list in some state since, or, a running one, been cancelled. */
  lemma WalkVisits(max: nat, emptyCb: bool, run: seq<State>, acts: seq<Action>, i: nat, j: nat, running: bool, p: nat,
      t: Id)
    requires IsRun(max, emptyCb, run, acts) && i <= j < |run| && p < |run[i].stack| && |run[j].stack| <= p
    requires At(run[i], p) == (if running then Active else Pending) && t in ListOf(run[i], running)
    ensures exists k :: i < k <= j && !Spared(run[k], running, t)
  {
    hide Leads, Inv, Spared;
    if forall k :: i < k <= j ==> Spared(run[k], running, t) {
      StillDue(max, emptyCb, run, acts, i, j, running, p, t);
      assert false;
    }
  }

  /** So each task that is active when runqueue_cancel_active or runqueue_cancel is called is cancelled or leaves, and
      each that waits when runqueue_cancel_pending or runqueue_cancel is called leaves its list. */
  lemma CancelsAll(max: nat, emptyCb: bool, run: seq<State>, acts: seq<Action>, i: nat, j: nat, running: bool, t: Id)
    requires IsRun(max, emptyCb, run, acts) && i < j < |run| && |run[j].stack| <= |run[i].stack|
    requires if running then acts[i].QueueCancelActive? || acts[i].QueueCancel?
      else acts[i].QueueCancelPending? || acts[i].QueueCancel?
    requires t in ListOf(run[i], running)
    ensures exists k :: i < k <= j && !Spared(run[k], running, t)
  {
    hide Leads, Spared;
    var p := |run[i].stack| + if acts[i].QueueCancel? && !running then 1 else 0;
    CallsWalk(max, emptyCb, run, acts, i, running, p);
    WalkVisits(max, emptyCb, run, acts, i + 1, j, running, p, t);
  }

  lemma CallsWalk(max: nat, emptyCb: bool, run: seq<State>, acts: seq<Action>, i: nat, running: bool, p: nat)
    requires IsRun(max, emptyCb, run, acts) && i < |acts|
    requires if running then acts[i].QueueCancelActive? || acts[i].QueueCancel?
      else acts[i].QueueCancelPending? || acts[i].QueueCancel?
    requires p == |run[i].stack| + if acts[i].QueueCancel? && !running then 1 else 0
    ensures p < |run[i+1].stack| && At(run[i+1], p) == if running then Active else Pending
    ensures ListOf(run[i+1], running) == ListOf(run[i], running)
  {
    assert Leads(run[i], acts[i], run[i+1]);
  }
}
