/** libubox/runqueue.c: tasks that wait, and tasks that run, at most so many at a time. Every callback may call the
    queue again, so the functions are cut at their callbacks; what is left to do behind a callback is on a stack. */
module RunQueue {
  import opened JsonValue

  type Id = nat

  /** runqueue_task; runnable says that its type has a run callback. */
  datatype Task = Task(queued: bool, running: bool, cancelled: bool, runnable: bool)

  /** What the timer of the queue is set to do */
  datatype Timer = Off | Start | Empty

  /** What is left to do. A function waits for one of its callbacks in the loop of __runqueue_start_next, and at the
      ends of runqueue_task_complete, runqueue_task_kill (if there is a callback) and runqueue_task_cancel. The others
      go on at once: a walk of runqueue_cancel_active or runqueue_cancel_pending that begins, or whose iterator is at a
      task or at the end; the loop, and the last line, of runqueue_kill. */
  datatype Frame =
    | Loop | AfterComplete | AfterKill(called: bool) | AfterCancel
    | Active | Pending | ActiveWalk(next: Option<Id>) | PendingWalk(next: Option<Id>) | KillActive | CancelTimer

  /** The task that an iterator is at */
  function Iterator(f: Frame): Option<Id> {
    if f.ActiveWalk? || f.PendingWalk? then f.next else None
  }

  predicate InCallback(f: Frame) {
    f.Loop? || f.AfterComplete? || f == AfterKill(true) || f.AfterCancel?
  }

  datatype State = State(tasks: map<Id, Task>, active: seq<Id>, inactive: seq<Id>, runningTasks: int, max: nat,
                         stopped: bool, empty: bool, emptyCb: bool, timer: Timer, stack: seq<Frame>)

  function Init(max: nat, emptyCb: bool): State {
    State(map[], [], [], 0, max, false, false, emptyCb, Off, [])
  }

  function Without(q: seq<Id>, t: Id): (r: seq<Id>)
    ensures t !in q ==> r == q
  {
    if q == [] then [] else if q[0] == t then q[1..] else [q[0]] + Without(q[1..], t)
  }

  function First(q: seq<Id>): Option<Id> {
    if q == [] then None else Some(q[0])
  }

  /** The task behind another one, if there is one */
  function Behind(q: seq<Id>, t: Id): Option<Id> {
    if q == [] then None else if q[0] == t then First(q[1..]) else Behind(q[1..], t)
  }

  /** safe_list_del: an iterator that is at a task that goes is moved on. */
  function Moved(f: Frame, t: Id, active: seq<Id>, inactive: seq<Id>): Frame {
    if f == ActiveWalk(Some(t)) then ActiveWalk(Behind(active, t))
    else if f == PendingWalk(Some(t)) then PendingWalk(Behind(inactive, t))
    else f
  }

  function AllMoved(stack: seq<Frame>, t: Id, active: seq<Id>, inactive: seq<Id>): (r: seq<Frame>)
    ensures |r| == |stack| && forall p :: 0 <= p < |stack| ==> r[p] == Moved(stack[p], t, active, inactive)
  {
    seq(|stack|, p requires 0 <= p < |stack| => Moved(stack[p], t, active, inactive))
  }

  /** runqueue_start_next */
  function Arm(s: State): State {
    if s.empty then s else s.(timer := Start)
  }

  /** _runqueue_task_add does add the task. */
  predicate Adds(s: State, t: Id, running: bool) {
    t in s.tasks && !s.tasks[t].queued && (s.tasks[t].runnable || running)
  }

  /** _runqueue_task_add */
  function Add(s: State, t: Id, running: bool, first: bool): State {
    if !Adds(s, t, running) then s
    else
      var s := s.(tasks := s.tasks[t := s.tasks[t].(queued := true, running := running, cancelled := false)],
        empty := false);
      Arm(if running then
          s.(runningTasks := s.runningTasks + 1, active := if first then [t] + s.active else s.active + [t])
        else s.(inactive := if first then [t] + s.inactive else s.inactive + [t]))
  }

  function Push(s: State, f: Frame): State {
    s.(stack := [f] + s.stack)
  }

  function Pop(s: State): State
    requires s.stack != []
  {
    s.(stack := s.stack[1..])
  }

  /** A task that is queued is taken out of its list. */
  function Removed(s: State, t: Id): State
    requires t in s.tasks
  {
    s.(tasks := s.tasks[t := s.tasks[t].(queued := false, running := false, cancelled := false)],
      runningTasks := if s.tasks[t].running then s.runningTasks - 1 else s.runningTasks, active := Without(s.active, t),
      inactive := Without(s.inactive, t), stack := AllMoved(s.stack, t, s.active, s.inactive))
  }

  /** runqueue_task_complete, up to the callback */
  function Complete(s: State, t: Id): State
    requires t in s.tasks
  {
    if !s.tasks[t].queued then s else Push(Removed(s, t), AfterComplete)
  }

  /** runqueue_task_cancel, up to the callback */
  function Cancel(s: State, t: Id): State
    requires t in s.tasks
  {
    var k := s.tasks[t];
    if !k.queued then s
    else if !k.running then Complete(s, t)
    else Push(s.(tasks := s.tasks[t := k.(cancelled := true)]), AfterCancel)
  }

  /** runqueue_task_kill, up to the first callback */
  function Kill(s: State, t: Id): State
    requires t in s.tasks
  {
    if !s.tasks[t].queued then s else Complete(Push(s, AfterKill(s.tasks[t].running)), t)
  }

  /** There is a task to start and nothing speaks against it. */
  predicate CanStart(s: State) {
    !s.stopped && s.inactive != [] && (s.max == 0 || s.runningTasks < s.max)
  }

  /** The first task that waits is started. */
  function Started(s: State): State
    requires s.inactive != [] && s.inactive[0] in s.tasks
  {
    var t := s.inactive[0];
    s.(inactive := s.inactive[1..], active := s.active + [t], runningTasks := s.runningTasks + 1,
       tasks := s.tasks[t := s.tasks[t].(running := true)], stack := AllMoved(s.stack, t, s.active, s.inactive))
  }

  /** One turn of the loop of __runqueue_start_next, up to the run callback, or what comes behind the loop */
  function Turn(s: State): State
    requires s.inactive != [] ==> s.inactive[0] in s.tasks
  {
    if CanStart(s) then Push(Started(s), Loop)
    else if !s.empty && s.active == [] && s.inactive == [] then
      s.(empty := true, timer := if s.emptyCb then Empty else s.timer)
    else s
  }

  /** What is called from outside, or from a callback; the timer; and what is left to do goes on. */
  datatype Action =
    | New(t: Id, runnable: bool) | TaskAdd(t: Id, running: bool, first: bool) | TaskComplete(t: Id) | TaskCancel(t: Id)
    | TaskKill(t: Id) | QueueCancelActive | QueueCancelPending | QueueCancel | QueueKill | QueueStop | QueueResume
    | TimerFires | GoOn

  /** The queue can be called. */
  predicate Open(s: State) {
    s.stack == [] || InCallback(s.stack[0])
  }

  /** The lists name tasks. */
  predicate Named(s: State) {
    (forall t :: t in s.active ==> t in s.tasks) && forall t :: t in s.inactive ==> t in s.tasks
  }

  predicate Enabled(s: State, a: Action) {
    match a
    case New(t, _) => Open(s) && t !in s.tasks
    case TaskAdd(t, _, _) => Open(s) && t in s.tasks
    case TaskComplete(t) => Open(s) && t in s.tasks
    case TaskCancel(t) => Open(s) && t in s.tasks
    case TaskKill(t) => Open(s) && t in s.tasks
    case TimerFires => Open(s) && s.timer != Off && Named(s)
    case GoOn => s.stack != [] && Named(s) && (Iterator(s.stack[0]).Some? ==> Iterator(s.stack[0]).value in s.tasks)
    case _ => Open(s)
  }

  function WentOn(s: State): State
    requires Enabled(s, GoOn)
  {
    match s.stack[0]
    case Loop => Turn(Pop(s))
    case AfterComplete => Arm(Pop(s))
    case AfterKill(_) => Arm(Pop(s))
    case AfterCancel => Pop(s)
    case Active => Push(Pop(s), ActiveWalk(First(s.active)))
    case Pending => Push(Pop(s), PendingWalk(First(s.inactive)))
    case ActiveWalk(None) => Pop(s)
    case ActiveWalk(Some(u)) =>
      Cancel(Push(Pop(s), ActiveWalk(Behind(s.active, u))), u)
    case PendingWalk(None) => Pop(s)
    case PendingWalk(Some(u)) =>
      Cancel(Push(Pop(s), PendingWalk(Behind(s.inactive, u))), u)
    case KillActive => if s.active == [] then Pop(s) else Kill(s, s.active[0])
    case CancelTimer => Pop(s).(timer := Off)
  }

  function Apply(s: State, a: Action): State
    requires Enabled(s, a)
  {
    match a
    case New(t, runnable) => s.(tasks := s.tasks[t := Task(false, false, false, runnable)])
    case TaskAdd(t, running, first) => Add(s, t, running, first)
    case TaskComplete(t) => Complete(s, t)
    case TaskCancel(t) => Cancel(s, t)
    case TaskKill(t) => Kill(s, t)
    case QueueCancelActive => Push(s, Active)
    case QueueCancelPending => Push(s, Pending)
    case QueueCancel => Push(Push(s, Active), Pending)
    case QueueKill => Push(Push(Push(s, CancelTimer), Pending), KillActive)
    case QueueStop => s.(stopped := true)
    case QueueResume => Arm(s.(stopped := false))
    case TimerFires => if s.timer == Start then Turn(s.(timer := Off)) else s.(timer := Off)
    case GoOn => WentOn(s)
  }

  // ---------- the code

  /** runqueue, with the fields of its tasks */
  class Queue {
    var tasks: map<Id, Task>
    var active: seq<Id>
    var inactive: seq<Id>
    var runningTasks: int
    const max: nat
    var stopped: bool
    var empty: bool
    const emptyCb: bool
    var timer: Timer
    /** What is left to do, with the iterators of the walks */
    ghost var stack: seq<Frame>

    ghost function View(): State
      reads this
    {
      State(tasks, active, inactive, runningTasks, max, stopped, empty, emptyCb, timer, stack)
    }

    /** runqueue_init, with the limit and callback its user sets */
    constructor (max: nat, emptyCb: bool)
      ensures View() == Init(max, emptyCb)
    {
      tasks, active, inactive, runningTasks := map[], [], [], 0;
      this.max, this.emptyCb, stopped, empty, timer, stack := max, emptyCb, false, false, Off, [];
    }

    method StartNext()
      modifies this`timer
      ensures View() == Arm(old(View()))
    {
      if empty {
        return;
      }
      timer := Start;
    }

    method AddTask(t: Id, running: bool, first: bool)
      requires t in tasks
      modifies this
      ensures View() == Add(old(View()), t, running, first)
    {
      if tasks[t].queued {
        return;
      }
      if !tasks[t].runnable && !running {
        return;
      }
      if running {
        runningTasks := runningTasks + 1;
        active := if first then [t] + active else active + [t];
      } else {
        inactive := if first then [t] + inactive else inactive + [t];
      }
      tasks := tasks[t := tasks[t].(cancelled := false, queued := true, running := running)];
      empty := false;
      StartNext();
    }

    /** runqueue_task_complete, up to the callback; the end is StartNext. */
    method CompleteTask(t: Id)
      requires t in tasks
      modifies this
      ensures View() == Complete(old(View()), t)
    {
      if !tasks[t].queued {
        return;
      }
      if tasks[t].running {
        runningTasks := runningTasks - 1;
      }
      stack := AllMoved(stack, t, active, inactive);
      active, inactive := Without(active, t), Without(inactive, t);
      tasks := tasks[t := tasks[t].(queued := false, running := false, cancelled := false)];
      stack := [AfterComplete] + stack;
    }

    /** runqueue_task_cancel, up to the callback */
    method CancelTask(t: Id)
      requires t in tasks
      modifies this
      ensures View() == Cancel(old(View()), t)
    {
      if !tasks[t].queued {
        return;
      }
      if !tasks[t].running {
        CompleteTask(t);
        return;
      }
      tasks := tasks[t := tasks[t].(cancelled := true)];
      stack := [AfterCancel] + stack;
    }

    /** runqueue_task_kill, up to the first callback */
    method KillTask(t: Id)
      requires t in tasks
      modifies this
      ensures View() == Kill(old(View()), t)
    {
      if !tasks[t].queued {
        return;
      }
      stack := [AfterKill(tasks[t].running)] + stack;
      CompleteTask(t);
    }

    /** One turn of the loop of __runqueue_start_next; more says that the run callback is called, and another turn
        follows. */
    method LoopTurn() returns (more: bool)
      requires inactive != [] ==> inactive[0] in tasks
      modifies this
      ensures View() == Turn(old(View())) && more == old(CanStart(View()))
    {
      more := false;
      if !stopped && inactive != [] && !(max != 0 && runningTasks >= max) {
        var t := inactive[0];
        stack := AllMoved(stack, t, active, inactive);
        inactive := inactive[1..];
        active := active + [t];
        tasks := tasks[t := tasks[t].(running := true)];
        runningTasks := runningTasks + 1;
        stack := [Loop] + stack;
        more := true;
        return;
      }
      if !empty && active == [] && inactive == [] {
        empty := true;
        if emptyCb {
          timer := Empty;
        }
      }
    }

    method Stop()
      modifies this`stopped
      ensures View() == old(View()).(stopped := true)
    {
      stopped := true;
    }

    method Resume()
      modifies this`stopped, this`timer
      ensures View() == Arm(old(View()).(stopped := false))
    {
      stopped := false;
      StartNext();
    }
  }

  // ---------- what every step keeps

  predicate NoRepeats(q: seq<Id>) {
    forall i, j :: 0 <= i < j < |q| ==> q[i] != q[j]
  }

  /** A queued task is in exactly one list: a running one in that of the active tasks. */
  ghost predicate ListsOk(s: State) {
    && NoRepeats(s.active) && NoRepeats(s.inactive) && s.runningTasks == |s.active|
    && (forall t :: t in s.active ==> t in s.tasks && s.tasks[t].queued && s.tasks[t].running)
    && (forall t :: t in s.inactive ==> t in s.tasks && s.tasks[t].queued && !s.tasks[t].running)
    && (forall t :: t in s.tasks && s.tasks[t].queued ==> t in if s.tasks[t].running then s.active else s.inactive)
    && (forall t :: t in s.tasks && !s.tasks[t].queued ==> !s.tasks[t].running && !s.tasks[t].cancelled)
    && (s.empty ==> s.active == [] && s.inactive == [])
  }

  /** An iterator is at a task of its list, or at the end. */
  predicate AtTask(f: Frame, active: seq<Id>, inactive: seq<Id>) {
    && (f.ActiveWalk? && f.next.Some? ==> f.next.value in active)
    && (f.PendingWalk? && f.next.Some? ==> f.next.value in inactive)
  }

  ghost predicate WalksOk(s: State) {
    forall p :: 0 <= p < |s.stack| ==> AtTask(s.stack[p], s.active, s.inactive)
  }

  /** The last line of runqueue_kill comes behind its walk. */
  ghost predicate KillsOk(stack: seq<Frame>) {
    && (forall p :: 0 < p < |stack| && stack[p] == CancelTimer ==> stack[p-1].Pending? || stack[p-1].PendingWalk?)
    && forall p :: 0 <= p < |stack| && stack[p] == KillActive ==> p + 1 < |stack| && stack[p+1] == Pending
  }

  ghost predicate Inv(s: State) {
    ListsOk(s) && WalksOk(s) && KillsOk(s.stack)
  }

  lemma {:induction false} WithoutFacts(q: seq<Id>, t: Id)
    requires NoRepeats(q)
    ensures NoRepeats(Without(q, t)) && |Without(q, t)| == |q| - (if t in q then 1 else 0)
    ensures forall u :: u in Without(q, t) <==> u in q && u != t
  {
    if q != [] {
      assert q[0] !in q[1..] && NoRepeats(q[1..]);
      WithoutFacts(q[1..], t);
    }
  }

  lemma {:induction false} BehindIn(q: seq<Id>, t: Id)
    requires NoRepeats(q)
    ensures Behind(q, t).Some? ==> Behind(q, t).value in q && Behind(q, t).value != t
  {
    if q != [] && q[0] != t { BehindIn(q[1..], t); }
  }

  lemma AddKeeps(s: State, t: Id, running: bool, first: bool)
    requires Inv(s)
    ensures Inv(Add(s, t, running, first))
  {
    hide KillsOk;
    var s' := Add(s, t, running, first);
    if s' != s {
      AddedOk(s, t, running, first);
    }
  }

  lemma AddedOk(s: State, t: Id, running: bool, first: bool)
    requires ListsOk(s) && Adds(s, t, running)
    ensures var s' := Add(s, t, running, first);
      ListsOk(s') && (forall u :: u in s.active ==> u in s'.active)
        && (forall u :: u in s.inactive ==> u in s'.inactive) && s'.stack == s.stack
  {
    var s' := Add(s, t, running, first);
    var q, q' := if running then s.active else s.inactive, if running then s'.active else s'.inactive;
    assert t !in q && forall u :: u in q' <==> u in q || u == t;
  }

  lemma RemovedLists(s: State, t: Id)
    requires ListsOk(s) && t in s.tasks && s.tasks[t].queued
    ensures ListsOk(Removed(s, t))
  {
    WithoutFacts(s.active, t);
    WithoutFacts(s.inactive, t);
  }

  lemma MovedAt(f: Frame, t: Id, active: seq<Id>, inactive: seq<Id>)
    requires NoRepeats(active) && NoRepeats(inactive) && AtTask(f, active, inactive)
    ensures AtTask(Moved(f, t, active, inactive), Without(active, t), Without(inactive, t))
  {
    WithoutFacts(active, t);
    WithoutFacts(inactive, t);
    BehindIn(active, t);
    BehindIn(inactive, t);
  }

  lemma RemovedKeeps(s: State, t: Id)
    requires Inv(s) && t in s.tasks && s.tasks[t].queued
    ensures Inv(Removed(s, t))
  {
    hide KillsOk, NoRepeats, Moved, AtTask;
    RemovedLists(s, t);
    KillsMoved(s.stack, t, s.active, s.inactive);
    var s' := Removed(s, t);
    forall p | 0 <= p < |s'.stack| ensures AtTask(s'.stack[p], s'.active, s'.inactive) {
      MovedAt(s.stack[p], t, s.active, s.inactive);
    }
  }

  lemma KillsMoved(stack: seq<Frame>, t: Id, active: seq<Id>, inactive: seq<Id>)
    requires KillsOk(stack)
    ensures KillsOk(AllMoved(stack, t, active, inactive))
  {
  }

  /** Something that waits for a callback is put on the stack, where there is nothing or another such. */
  lemma PushKeeps(s: State, f: Frame)
    requires Inv(s) && f != CancelTimer && f != KillActive && AtTask(f, s.active, s.inactive)
    requires s.stack != [] && s.stack[0] == CancelTimer ==> f.Pending? || f.PendingWalk?
    ensures Inv(Push(s, f))
  {
    hide AtTask;
    var s' := Push(s, f);
    forall p | 0 <= p < |s'.stack| ensures AtTask(s'.stack[p], s'.active, s'.inactive) {
      if p > 0 { assert s'.stack[p] == s.stack[p-1]; }
    }
    forall p | 0 < p < |s'.stack| && s'.stack[p] == CancelTimer
      ensures s'.stack[p-1].Pending? || s'.stack[p-1].PendingWalk? {
      assert s'.stack[p] == s.stack[p-1];
    }
  }

  lemma PopKeeps(s: State)
    requires Inv(s) && s.stack != []
    ensures Inv(Pop(s))
  {
    hide AtTask;
    var s' := Pop(s);
    assert forall p :: 0 <= p < |s'.stack| ==> s'.stack[p] == s.stack[p+1];
  }

  /** A task goes while something can be called, or a walk or runqueue_kill goes on. */
  lemma CompleteKeeps(s: State, t: Id)
    requires Inv(s) && t in s.tasks && (s.stack == [] || s.stack[0] != CancelTimer)
    ensures Inv(Complete(s, t))
  {
    hide ListsOk, WalksOk, KillsOk;
    if s.tasks[t].queued {
      RemovedKeeps(s, t);
      PushKeeps(Removed(s, t), AfterComplete);
    }
  }

  lemma CancelKeeps(s: State, t: Id)
    requires Inv(s) && t in s.tasks && (s.stack == [] || s.stack[0] != CancelTimer)
    ensures Inv(Cancel(s, t))
  {
    hide WalksOk, KillsOk;
    if s.tasks[t].queued && s.tasks[t].running {
      var s1 := s.(tasks := s.tasks[t := s.tasks[t].(cancelled := true)]);
      SameLists(s, s1);
      PushKeeps(s1, AfterCancel);
    } else {
      CompleteKeeps(s, t);
    }
  }

  lemma SameLists(s: State, s': State)
    requires Inv(s) && s'.active == s.active && s'.inactive == s.inactive && s'.stack == s.stack && ListsOk(s')
    ensures Inv(s')
  {
  }

  lemma KillKeeps(s: State, t: Id)
    requires Inv(s) && t in s.tasks && (s.stack == [] || s.stack[0] != CancelTimer)
    ensures Inv(Kill(s, t))
  {
    hide ListsOk, WalksOk, KillsOk;
    if s.tasks[t].queued {
      PushKeeps(s, AfterKill(s.tasks[t].running));
      CompleteKeeps(Push(s, AfterKill(s.tasks[t].running)), t);
    }
  }

  lemma NamedByLists(s: State)
    requires ListsOk(s)
    ensures Named(s)
  {
  }

  lemma StartedLists(s: State)
    requires ListsOk(s) && s.inactive != [] && s.inactive[0] in s.tasks
    ensures ListsOk(Started(s)) && Without(s.inactive, s.inactive[0]) == s.inactive[1..] && s.inactive[0] !in s.active
  {
    var t := s.inactive[0];
    assert s.inactive == [t] + s.inactive[1..] && t !in s.inactive[1..] && t !in s.active;
  }

  lemma StartedKeeps(s: State)
    requires Inv(s) && s.inactive != [] && s.inactive[0] in s.tasks
    ensures Inv(Started(s))
  {
    hide KillsOk, NoRepeats, Moved;
    var t, s' := s.inactive[0], Started(s);
    StartedLists(s);
    KillsMoved(s.stack, t, s.active, s.inactive);
    forall p | 0 <= p < |s'.stack| ensures AtTask(s'.stack[p], s'.active, s'.inactive) {
      MovedAt(s.stack[p], t, s.active, s.inactive);
    }
  }

  lemma TurnKeeps(s: State)
    requires Inv(s) && (s.inactive != [] ==> s.inactive[0] in s.tasks) && (s.stack == [] || s.stack[0] != CancelTimer)
    ensures Inv(Turn(s))
  {
    hide WalksOk, KillsOk;
    if CanStart(s) {
      StartedKeeps(s);
      PushKeeps(Started(s), Loop);
    } else {
      SameLists(s, Turn(s));
    }
  }

  lemma ArmKeeps(s: State)
    requires Inv(s)
    ensures Inv(Arm(s))
  {
    hide WalksOk, KillsOk;
    SameLists(s, Arm(s));
  }

  /** A walk goes on to the next task. */
  lemma WalkKeeps(s: State, f: Frame)
    requires Inv(s) && s.stack != [] && AtTask(f, s.active, s.inactive)
    requires f.PendingWalk? || (f.ActiveWalk? && (s.stack[0].Active? || s.stack[0].ActiveWalk?))
    requires f.PendingWalk? ==> s.stack[0].Pending? || s.stack[0].PendingWalk?
    ensures Inv(Push(Pop(s), f))
  {
    hide ListsOk, WalksOk, AtTask;
    PopKeeps(s);
    if |s.stack| > 1 { assert Pop(s).stack[0] == s.stack[1]; }
    PushKeeps(Pop(s), f);
  }

  lemma WalkOnKeeps(s: State)
    requires Inv(s) && Enabled(s, GoOn) && Iterator(s.stack[0]).Some?
    ensures Inv(WentOn(s))
  {
    hide KillsOk;
    var u := Iterator(s.stack[0]).value;
    BehindIn(s.active, u);
    BehindIn(s.inactive, u);
    hide ListsOk, WalksOk;
    var f := if s.stack[0].ActiveWalk? then ActiveWalk(Behind(s.active, u)) else PendingWalk(Behind(s.inactive, u));
    WalkKeeps(s, f);
    CancelKeeps(Push(Pop(s), f), u);
  }

  lemma GoOnKeeps(s: State)
    requires Inv(s) && Enabled(s, GoOn)
    ensures Inv(WentOn(s))
  {
    hide ListsOk, WalksOk, AtTask, Turn, Arm, Kill, Cancel;
    PopKeeps(s);
    match s.stack[0]
    case Loop =>
      NotBeforeTimer(s);
      TurnKeeps(Pop(s));
    case AfterComplete => ArmKeeps(Pop(s));
    case AfterKill(_) => ArmKeeps(Pop(s));
    case AfterCancel =>
    case Active =>
      FirstIn(s.active, s.inactive);
      WalkKeeps(s, ActiveWalk(First(s.active)));
    case Pending =>
      FirstIn(s.active, s.inactive);
      WalkKeeps(s, PendingWalk(First(s.inactive)));
    case ActiveWalk(next) =>
      if next.Some? { WalkOnKeeps(s); }
    case PendingWalk(next) =>
      if next.Some? { WalkOnKeeps(s); }
    case KillActive =>
      if s.active != [] { KillKeeps(s, s.active[0]); }
    case CancelTimer => TimerLists(Pop(s));
  }

  lemma NotBeforeTimer(s: State)
    requires KillsOk(s.stack) && s.stack != [] && s.stack[0].Loop?
    ensures Pop(s).stack == [] || Pop(s).stack[0] != CancelTimer
  {
  }

  lemma FirstIn(active: seq<Id>, inactive: seq<Id>)
    ensures AtTask(ActiveWalk(First(active)), active, inactive)
      && AtTask(PendingWalk(First(inactive)), active, inactive)
  {
  }

  lemma TimerLists(s: State)
    requires Inv(s)
    ensures Inv(s.(timer := Off))
  {
    hide WalksOk, KillsOk;
    SameLists(s, s.(timer := Off));
  }

  lemma NewKeeps(s: State, t: Id, runnable: bool)
    requires Inv(s) && Enabled(s, New(t, runnable))
    ensures Inv(Apply(s, New(t, runnable)))
  {
    hide WalksOk, KillsOk;
    SameLists(s, Apply(s, New(t, runnable)));
  }

  lemma QueueKeeps(s: State, a: Action)
    requires Inv(s) && Enabled(s, a) && (a.QueueCancelActive? || a.QueueCancelPending? || a.QueueCancel?)
    ensures Inv(Apply(s, a))
  {
    hide ListsOk, WalksOk, KillsOk;
    if a.QueueCancelPending? {
      PushKeeps(s, Pending);
    } else {
      PushKeeps(s, Active);
      if a.QueueCancel? { PushKeeps(Push(s, Active), Pending); }
    }
  }

  lemma QueueKillKeeps(s: State)
    requires Inv(s) && Open(s)
    ensures Inv(Apply(s, QueueKill))
  {
    hide ListsOk, AtTask;
    var s' := Apply(s, QueueKill);
    ListsSame(s, s');
    assert s'.stack == [KillActive, Pending, CancelTimer] + s.stack;
    forall p | 0 <= p < |s'.stack| ensures AtTask(s'.stack[p], s'.active, s'.inactive) {
      NoTask(s.active, s.inactive);
      if p > 2 { assert s'.stack[p] == s.stack[p-3]; }
    }
  }

  lemma NoTask(active: seq<Id>, inactive: seq<Id>)
    ensures AtTask(KillActive, active, inactive) && AtTask(Pending, active, inactive)
      && AtTask(CancelTimer, active, inactive)
  {
  }

  lemma ListsSame(s: State, s': State)
    requires ListsOk(s) && s' == s.(stack := s'.stack)
    ensures ListsOk(s')
  {
  }

  lemma TimerKeeps(s: State)
    requires Inv(s) && Enabled(s, TimerFires)
    ensures Inv(Apply(s, TimerFires))
  {
    hide ListsOk, WalksOk, KillsOk, Turn;
    TimerLists(s);
    if s.timer == Start { TurnKeeps(s.(timer := Off)); }
  }

  lemma StopKeeps(s: State, stop: bool)
    requires Inv(s)
    ensures Inv(s.(stopped := stop))
  {
    hide WalksOk, KillsOk;
    SameLists(s, s.(stopped := stop));
  }

  lemma StepKeeps(s: State, a: Action)
    requires Inv(s) && Enabled(s, a)
    ensures Inv(Apply(s, a))
  {
    hide Inv, Add, Complete, Cancel, Kill, WentOn, Turn, Arm, Named;
    match a
    case New(t, runnable) => NewKeeps(s, t, runnable);
    case TaskAdd(t, running, first) => AddKeeps(s, t, running, first);
    case TaskComplete(t) => CompleteKeeps(s, t);
    case TaskCancel(t) => CancelKeeps(s, t);
    case TaskKill(t) => KillKeeps(s, t);
    case QueueKill => QueueKillKeeps(s);
    case QueueStop => StopKeeps(s, true);
    case QueueResume =>
      StopKeeps(s, false);
      ArmKeeps(s.(stopped := false));
    case TimerFires => TimerKeeps(s);
    case GoOn => GoOnKeeps(s);
    case _ => QueueKeeps(s, a);
  }

  // ---------- the timer

  predicate Arms(f: Frame) {
    f.Loop? || f.AfterComplete? || f.AfterKill?
  }

  ghost predicate Obliged(stack: seq<Frame>) {
    exists p :: 0 <= p < |stack| && Arms(stack[p])
  }

  /** If something can be started, the timer is set, or will be. */
  ghost predicate TimerOk(s: State) {
    CanStart(s) ==> s.timer == Start || Obliged(s.stack)
  }

  lemma ObligedPush(f: Frame, stack: seq<Frame>)
    ensures Arms(f) || Obliged(stack) ==> Obliged([f] + stack)
  {
    var more := [f] + stack;
    if Arms(f) { assert Arms(more[0]); }
    if Obliged(stack) {
      var p :| 0 <= p < |stack| && Arms(stack[p]);
      assert Arms(more[p+1]);
    }
  }

  lemma ObligedPop(stack: seq<Frame>)
    requires stack != [] && !Arms(stack[0])
    ensures Obliged(stack) ==> Obliged(stack[1..])
  {
    if Obliged(stack) {
      var p :| 0 <= p < |stack| && Arms(stack[p]);
      assert Arms(stack[1..][p-1]);
    }
  }

  lemma ObligedMoved(stack: seq<Frame>, t: Id, active: seq<Id>, inactive: seq<Id>)
    ensures Obliged(stack) ==> Obliged(AllMoved(stack, t, active, inactive))
  {
    if Obliged(stack) {
      var p :| 0 <= p < |stack| && Arms(stack[p]);
      assert Arms(AllMoved(stack, t, active, inactive)[p]);
    }
  }

  lemma CompleteTimer(s: State, t: Id)
    requires TimerOk(s) && t in s.tasks
    ensures TimerOk(Complete(s, t)) && (s.tasks[t].queued ==> Obliged(Complete(s, t).stack))
  {
    if s.tasks[t].queued { ObligedPush(AfterComplete, Removed(s, t).stack); }
  }

  lemma CancelTimerOk(s: State, t: Id)
    requires TimerOk(s) && t in s.tasks
    ensures TimerOk(Cancel(s, t))
  {
    hide Obliged;
    CompleteTimer(s, t);
    ObligedPush(AfterCancel, s.stack);
  }

  lemma KillTimer(s: State, t: Id)
    requires TimerOk(s) && t in s.tasks
    ensures TimerOk(Kill(s, t))
  {
    hide Obliged, Complete;
    if s.tasks[t].queued {
      ObligedPush(AfterKill(s.tasks[t].running), s.stack);
      CompleteTimer(Push(s, AfterKill(s.tasks[t].running)), t);
    }
  }

  lemma TurnTimer(s: State)
    requires s.inactive != [] ==> s.inactive[0] in s.tasks
    ensures TimerOk(Turn(s))
  {
    hide Obliged;
    if CanStart(s) { ObligedPush(Loop, Started(s).stack); }
  }

  lemma PopTimer(s: State)
    requires TimerOk(s) && s.stack != [] && !Arms(s.stack[0])
    ensures TimerOk(Pop(s))
  {
    hide Obliged;
    ObligedPop(s.stack);
  }

  lemma WalkTimer(s: State, f: Frame)
    requires TimerOk(s) && s.stack != [] && !Arms(s.stack[0])
    ensures TimerOk(Push(Pop(s), f))
  {
    hide Obliged;
    PopTimer(s);
    ObligedPush(f, Pop(s).stack);
  }

  lemma GoOnTimer(s: State)
    requires Inv(s) && TimerOk(s) && Enabled(s, GoOn) && (s.stack[0] == CancelTimer ==> s.inactive == [])
    ensures TimerOk(WentOn(s))
  {
    hide Obliged, Turn, Kill, Cancel, WalksOk, KillsOk;
    match s.stack[0]
    case Loop => TurnTimer(Pop(s));
    case AfterComplete =>
    case AfterKill(_) =>
    case Active => WalkTimer(s, ActiveWalk(First(s.active)));
    case Pending => WalkTimer(s, PendingWalk(First(s.inactive)));
    case ActiveWalk(Some(u)) =>
      WalkTimer(s, ActiveWalk(Behind(s.active, u)));
      CancelTimerOk(Push(Pop(s), ActiveWalk(Behind(s.active, u))), u);
    case PendingWalk(Some(u)) =>
      WalkTimer(s, PendingWalk(Behind(s.inactive, u)));
      CancelTimerOk(Push(Pop(s), PendingWalk(Behind(s.inactive, u))), u);
    case KillActive =>
      PopTimer(s);
      if s.active != [] { KillTimer(s, s.active[0]); }
    case _ => PopTimer(s);
  }

  lemma StepTimer(s: State, a: Action)
    requires Inv(s) && TimerOk(s) && Enabled(s, a)
      && (a.GoOn? && s.stack != [] && s.stack[0] == CancelTimer ==> s.inactive == [])
    ensures TimerOk(Apply(s, a))
  {
    hide Obliged, Turn, Kill, Cancel, Complete, WentOn, WalksOk, KillsOk, AllMoved;
    match a
    case TaskComplete(t) => CompleteTimer(s, t);
    case TaskCancel(t) => CancelTimerOk(s, t);
    case TaskKill(t) => KillTimer(s, t);
    case QueueCancelActive => ObligedPush(Active, s.stack);
    case QueueCancelPending => ObligedPush(Pending, s.stack);
    case QueueCancel =>
      ObligedPush(Active, s.stack);
      ObligedPush(Pending, [Active] + s.stack);
    case QueueKill =>
      ObligedPush(CancelTimer, s.stack);
      ObligedPush(Pending, [CancelTimer] + s.stack);
      ObligedPush(KillActive, [Pending] + ([CancelTimer] + s.stack));
    case TimerFires => TurnTimer(s.(timer := Off));
    case GoOn => GoOnTimer(s);
    case _ =>
  }

  // ---------- what runqueue_kill leaves behind

  /** The tasks that an iterator has passed */
  function Before(q: seq<Id>, next: Option<Id>): seq<Id> {
    if q == [] || next == Some(q[0]) then [] else [q[0]] + Before(q[1..], next)
  }

  /** The last line of a call of runqueue_kill that is e frames from the bottom of the stack */
  predicate IsKill(s: State, e: nat) {
    e < |s.stack| && s.stack[|s.stack| - 1 - e] == CancelTimer
  }

  /** The frame of its walk, or None when that is over or has not begun */
  function WalkOf(s: State, e: nat): Option<Frame> {
    if IsKill(s, e) && e + 1 < |s.stack| && s.stack[|s.stack| - 2 - e].PendingWalk? then
      Some(s.stack[|s.stack| - 2 - e])
    else None
  }

  /** The waiting tasks that the walk of a call of runqueue_kill has not visited and will not visit */
  function Missed(s: State, e: nat): seq<Id> {
    if WalkOf(s, e).Some? then Before(s.inactive, WalkOf(s, e).value.next)
    else if IsKill(s, e) && e + 1 == |s.stack| then s.inactive
    else []
  }

  /** A task is added to those that wait while the walk of a call of runqueue_kill is on: in front, or when the walk is
      at the last. */
  predicate AddsLate(s: State, a: Action, t: Id, e: nat) {
    && a.TaskAdd? && a.t == t && !a.running && Adds(s, t, false)
    && WalkOf(s, e).Some? && (a.first || WalkOf(s, e).value.next.None?)
  }

  lemma {:induction false} BeforeIn(q: seq<Id>, next: Option<Id>)
    ensures (forall t :: t in Before(q, next) ==> t in q) && (next.None? ==> Before(q, next) == q)
      && Before(q, First(q)) == []
    ensures q == [] ==> Before(q, next) == []
  {
    if q != [] { BeforeIn(q[1..], next); }
  }

  lemma {:induction false} BeforeAdded(q: seq<Id>, next: Option<Id>, t: Id)
    requires t !in q && (next.Some? ==> next.value in q)
    ensures forall u :: u in Before(q + [t], next) && u !in Before(q, next) ==> u == t && next.None?
    ensures forall u :: u in Before([t] + q, next) && u !in Before(q, next) ==> u == t
  {
    assert ([t] + q)[1..] == q;
    BeforeAtEnd(q, next, t);
  }

  lemma {:induction false} BeforeAtEnd(q: seq<Id>, next: Option<Id>, t: Id)
    requires t !in q && (next.Some? ==> next.value in q)
    ensures forall u :: u in Before(q + [t], next) && u !in Before(q, next) ==> u == t && next.None?
  {
    if q != [] && next != Some(q[0]) {
      assert (q + [t])[0] == q[0] && (q + [t])[1..] == q[1..] + [t];
      BeforeAtEnd(q[1..], next, t);
    }
  }

  lemma {:induction false} BeforeRemoved(q: seq<Id>, next: Option<Id>, t: Id)
    requires NoRepeats(q)
    ensures var n := if next == Some(t) then Behind(q, t) else next;
      forall u :: u in Before(Without(q, t), n) ==> u in Before(q, next) && u != t
  {
    if q == [] {
      BeforeIn(Without(q, t), if next == Some(t) then Behind(q, t) else next);
    } else {
      var rest := q[1..];
      assert q[0] !in rest && NoRepeats(rest);
      if q[0] == t {
        BeforeIn(rest, First(rest));
        BeforeIn(rest, next);
        assert Without(q, t) == rest && Behind(q, t) == First(rest);
        if next != Some(t) {
          assert Before(q, next) == [t] + Before(rest, next);
        } else {
          assert Before(rest, First(rest)) == [];
        }
      } else {
        var n := if next == Some(t) then Behind(rest, t) else next;
        BehindIn(rest, t);
        BeforeRemoved(rest, next, t);
        var w := [q[0]] + Without(rest, t);
        assert Behind(q, t) == Behind(rest, t) && Without(q, t) == w && w[1..] == Without(rest, t) && w[0] == q[0];
        forall u | u in Before(w, n) ensures u in Before(q, next) && u != t {
          assert n != Some(q[0]) && next != Some(q[0]);
          assert Before(w, n) == [q[0]] + Before(Without(rest, t), n) && Before(q, next) == [q[0]] + Before(rest, next);
          if u != q[0] { assert u in Before(Without(rest, t), n); }
        }
      }
    }
  }

  lemma {:induction false} BeforeNext(q: seq<Id>, t: Id)
    requires NoRepeats(q) && t in q
    ensures forall u :: u in Before(q, Behind(q, t)) ==> u in Before(q, Some(t)) || u == t
  {
    if q[0] == t {
      assert q[0] !in q[1..];
      BeforeIn(q[1..], First(q[1..]));
    } else {
      assert NoRepeats(q[1..]) && q[0] !in q[1..];
      BehindIn(q[1..], t);
      BeforeNext(q[1..], t);
    }
  }

  /** The frames keep their places, and the walks of kills their iterators or the next ones, when a task goes. */
  lemma MissedRemoved(s: State, t: Id, e: nat, u: Id)
    requires ListsOk(s) && t in s.tasks && s.tasks[t].queued
    ensures u in Missed(Removed(s, t), e) ==> u in Missed(s, e) && u != t
  {
    hide AllMoved, Before, Behind, First, Without, NoRepeats;
    var s' := Removed(s, t);
    WithoutFacts(s.inactive, t);
    if IsKill(s', e) {
      assert s'.stack[|s.stack| - 1 - e] == Moved(s.stack[|s.stack| - 1 - e], t, s.active, s.inactive);
      if e + 1 < |s.stack| {
        assert s'.stack[|s.stack| - 2 - e] == Moved(s.stack[|s.stack| - 2 - e], t, s.active, s.inactive);
        if WalkOf(s, e).Some? { BeforeRemoved(s.inactive, WalkOf(s, e).value.next, t); }
      }
    }
  }

  lemma MissedStarted(s: State, e: nat, u: Id)
    requires ListsOk(s) && s.inactive != [] && s.inactive[0] in s.tasks
    ensures u in Missed(Started(s), e) ==> u in Missed(s, e)
  {
    hide AllMoved, Before, Behind, First, Without, NoRepeats;
    var t, s' := s.inactive[0], Started(s);
    StartedLists(s);
    if IsKill(s', e) {
      assert s'.stack[|s.stack| - 1 - e] == Moved(s.stack[|s.stack| - 1 - e], t, s.active, s.inactive);
      if e + 1 < |s.stack| {
        assert s'.stack[|s.stack| - 2 - e] == Moved(s.stack[|s.stack| - 2 - e], t, s.active, s.inactive);
        if WalkOf(s, e).Some? { BeforeRemoved(s.inactive, WalkOf(s, e).value.next, t); }
      }
    }
  }

  /** A frame is put on top, where there is no last line of a kill. */
  lemma MissedPushed(s: State, f: Frame, e: nat)
    requires s.stack == [] || s.stack[0] != CancelTimer
    ensures f != CancelTimer ==> Missed(Push(s, f), e) == Missed(s, e)
    ensures e < |s.stack| ==> Missed(Push(s, f), e) == Missed(s, e)
  {
    var s' := Push(s, f);
    if e < |s.stack| { assert s'.stack[|s'.stack| - 1 - e] == s.stack[|s.stack| - 1 - e]; }
    if e + 1 < |s.stack| { assert s'.stack[|s'.stack| - 2 - e] == s.stack[|s.stack| - 2 - e]; }
  }

  /** A frame goes that is not the walk of a kill: what is below it is as before. */
  lemma MissedPopped(s: State, e: nat)
    requires s.stack != [] && (|s.stack| > 1 && s.stack[1] == CancelTimer ==> s.stack[0] == PendingWalk(None))
    ensures Missed(Pop(s), e) == [] || Missed(Pop(s), e) == Missed(s, e)
  {
    var s' := Pop(s);
    BeforeIn(s.inactive, None);
    if e < |s'.stack| { assert s'.stack[|s'.stack| - 1 - e] == s.stack[|s.stack| - 1 - e]; }
    if e + 1 < |s'.stack| { assert s'.stack[|s'.stack| - 2 - e] == s.stack[|s.stack| - 2 - e]; }
  }

  lemma MissedComplete(s: State, t: Id, e: nat, u: Id)
    requires ListsOk(s) && t in s.tasks && (s.stack == [] || s.stack[0] != CancelTimer)
    ensures u in Missed(Complete(s, t), e) ==> u in Missed(s, e) && (s.tasks[t].queued ==> u != t)
  {
    hide Missed, ListsOk, AllMoved;
    if s.tasks[t].queued {
      MissedRemoved(s, t, e, u);
      TopMoved(s, t);
      MissedPushed(Removed(s, t), AfterComplete, e);
    }
  }

  lemma TopMoved(s: State, t: Id)
    requires t in s.tasks && (s.stack == [] || s.stack[0] != CancelTimer)
    ensures Removed(s, t).stack == [] || Removed(s, t).stack[0] != CancelTimer
  {
  }

  lemma MissedCancel(s: State, t: Id, e: nat, u: Id)
    requires ListsOk(s) && t in s.tasks && (s.stack == [] || s.stack[0] != CancelTimer)
    ensures u in Missed(Cancel(s, t), e) ==> u in Missed(s, e) && (s.tasks[t].queued && !s.tasks[t].running ==> u != t)
  {
    hide ListsOk;
    if s.tasks[t].queued && s.tasks[t].running {
      MissedPushed(s.(tasks := s.tasks[t := s.tasks[t].(cancelled := true)]), AfterCancel, e);
    } else {
      MissedComplete(s, t, e, u);
    }
  }

  lemma MissedKill(s: State, t: Id, e: nat, u: Id)
    requires ListsOk(s) && t in s.tasks && (s.stack == [] || s.stack[0] != CancelTimer)
    ensures u in Missed(Kill(s, t), e) ==> u in Missed(s, e)
  {
    hide Missed, Complete;
    if s.tasks[t].queued {
      var s1 := Push(s, AfterKill(s.tasks[t].running));
      ListsSame(s, s1);
      hide ListsOk;
      MissedPushed(s, AfterKill(s.tasks[t].running), e);
      MissedComplete(s1, t, e, u);
    }
  }

  lemma MissedTurn(s: State, e: nat, u: Id)
    requires ListsOk(s) && (s.inactive != [] ==> s.inactive[0] in s.tasks)
      && (s.stack == [] || s.stack[0] != CancelTimer)
    ensures u in Missed(Turn(s), e) ==> u in Missed(s, e)
  {
    hide ListsOk, AllMoved;
    if CanStart(s) {
      MissedStarted(s, e, u);
      MissedPushed(Started(s), Loop, e);
    }
  }

  /** The walk of a kill, or another, goes on. */
  lemma MissedWalk(s: State, f: Frame, e: nat, u: Id)
    requires Inv(s) && s.stack != []
      && (s.stack[0].Active? || s.stack[0].Pending? || s.stack[0].ActiveWalk? || s.stack[0].PendingWalk?)
    requires f.ActiveWalk? ==> s.stack[0].Active? || s.stack[0].ActiveWalk?
    requires f.ActiveWalk? || (f.PendingWalk? && (s.stack[0].Pending? ==> f.next == First(s.inactive)))
    requires f.PendingWalk? && !s.stack[0].Pending? ==>
      s.stack[0].PendingWalk? && s.stack[0].next.Some? && s.stack[0].next.value in s.inactive
        && f.next == Behind(s.inactive, s.stack[0].next.value)
    ensures u in Missed(Push(Pop(s), f), e) ==> u in Missed(s, e) || Some(u) == Iterator(s.stack[0])
  {
    hide WalksOk;
    var s' := Push(Pop(s), f);
    assert forall p :: 0 < p < |s.stack| ==> s'.stack[p] == s.stack[p];
    if f.PendingWalk? {
      BeforeIn(s.inactive, None);
      if s.stack[0].PendingWalk? { BeforeNext(s.inactive, s.stack[0].next.value); }
    }
  }

  lemma MissedGoOn(s: State, e: nat, u: Id)
    requires Inv(s) && Enabled(s, GoOn)
    ensures u in Missed(WentOn(s), e) ==> u in Missed(s, e)
  {
    hide Turn, Kill, Cancel, Missed, Pop;
    match s.stack[0]
    case Loop =>
      NotBeforeTimer(s);
      PopMissed(s, e, u);
      MissedTurn(Pop(s), e, u);
    case AfterComplete => PopMissed(s, e, u);
    case AfterKill(_) => PopMissed(s, e, u);
    case AfterCancel => PopMissed(s, e, u);
    case Active => MissedWalk(s, ActiveWalk(First(s.active)), e, u);
    case Pending => MissedWalk(s, PendingWalk(First(s.inactive)), e, u);
    case ActiveWalk(next) =>
      if next.Some? { WalkOnMissed(s, e, u); } else { PopMissed(s, e, u); }
    case PendingWalk(next) =>
      if next.Some? { WalkOnMissed(s, e, u); } else { PopMissed(s, e, u); }
    case KillActive =>
      if s.active == [] { PopMissed(s, e, u); } else { MissedKill(s, s.active[0], e, u); }
    case CancelTimer => PopMissed(s, e, u);
  }

  lemma PopMissed(s: State, e: nat, u: Id)
    requires Inv(s) && s.stack != [] && !s.stack[0].Pending? && (s.stack[0].PendingWalk? ==> s.stack[0].next.None?)
    ensures u in Missed(Pop(s), e) ==> u in Missed(s, e)
    ensures Missed(Arm(Pop(s)), e) == Missed(Pop(s), e) == Missed(Pop(s).(timer := Off), e)
    ensures ListsOk(Pop(s)) && Named(s)
  {
    hide ListsOk, WalksOk, Missed;
    NamedByLists(s);
    ListsSame(s, Pop(s));
    MissedPopped(s, e);
    MissedSame(Pop(s), Arm(Pop(s)), e);
    MissedSame(Pop(s), Pop(s).(timer := Off), e);
  }

  lemma MissedSame(s: State, s': State, e: nat)
    requires s'.stack == s.stack && s'.inactive == s.inactive
    ensures Missed(s', e) == Missed(s, e)
  {
  }

  lemma WalkOnMissed(s: State, e: nat, u: Id)
    requires Inv(s) && Enabled(s, GoOn) && Iterator(s.stack[0]).Some?
    ensures u in Missed(WentOn(s), e) ==> u in Missed(s, e)
  {
    hide Missed, Cancel, KillsOk;
    var t := Iterator(s.stack[0]).value;
    var f := if s.stack[0].ActiveWalk? then ActiveWalk(Behind(s.active, t)) else PendingWalk(Behind(s.inactive, t));
    ListsSame(s, Push(Pop(s), f));
    MissedWalk(s, f, e, u);
    MissedCancel(Push(Pop(s), f), t, e, u);
    BehindIn(s.active, t);
    if s.stack[0].ActiveWalk? { NotMissed(Push(Pop(s), f), e, t); }
  }

  /** A task that runs does not wait. */
  lemma NotMissed(s: State, e: nat, t: Id)
    requires ListsOk(s) && t in s.active
    ensures t !in Missed(s, e)
  {
    assert t !in s.inactive;
    BeforeIn(s.inactive, None);
    if WalkOf(s, e).Some? { BeforeIn(s.inactive, WalkOf(s, e).value.next); }
  }

  lemma MissedAdd(s: State, t: Id, running: bool, first: bool, e: nat, u: Id)
    requires Inv(s) && Enabled(s, TaskAdd(t, running, first))
    ensures u in Missed(Add(s, t, running, first), e) ==>
      u in Missed(s, e) || AddsLate(s, TaskAdd(t, running, first), u, e)
  {
    hide ListsOk, WalksOk, KillsOk, Missed, AddsLate;
    if Adds(s, t, running) && !running {
      MissedWaiting(s, t, first, e, u);
    } else {
      MissedSame(s, Add(s, t, running, first), e);
    }
  }

  lemma MissedWaiting(s: State, t: Id, first: bool, e: nat, u: Id)
    requires Inv(s) && Enabled(s, TaskAdd(t, false, first)) && Adds(s, t, false)
    ensures u in Missed(Add(s, t, false, first), e) ==> u in Missed(s, e) || AddsLate(s, TaskAdd(t, false, first), u, e)
  {
    hide KillsOk, NoRepeats, Before;
    var s' := Add(s, t, false, first);
    assert s'.stack == s.stack && t !in s.inactive;
    if WalkOf(s, e).Some? {
      assert AtTask(s.stack[|s.stack| - 2 - e], s.active, s.inactive);
      BeforeAdded(s.inactive, WalkOf(s, e).value.next, t);
    }
  }

  /** Only what is added late is ever missed. */
  lemma MissedStep(s: State, a: Action, e: nat, u: Id)
    requires Inv(s) && Enabled(s, a)
    ensures u in Missed(Apply(s, a), e) ==> u in Missed(s, e) || AddsLate(s, a, u, e)
  {
    hide Missed, Add, Complete, Cancel, Kill, WentOn, Turn, WalksOk, KillsOk, AddsLate;
    match a
    case New(t, runnable) => MissedSame(s, Apply(s, a), e);
    case TaskAdd(t, running, first) => MissedAdd(s, t, running, first, e, u);
    case TaskComplete(t) => MissedComplete(s, t, e, u);
    case TaskCancel(t) => MissedCancel(s, t, e, u);
    case TaskKill(t) => MissedKill(s, t, e, u);
    case QueueCancelActive => MissedPushed(s, Active, e);
    case QueueCancelPending => MissedPushed(s, Pending, e);
    case QueueCancel =>
      MissedPushed(s, Active, e);
      MissedPushed(Push(s, Active), Pending, e);
    case QueueKill => MissedQueueKill(s, e);
    case QueueStop => MissedSame(s, Apply(s, a), e);
    case QueueResume => MissedSame(s, Apply(s, a), e);
    case TimerFires =>
      MissedSame(s, s.(timer := Off), e);
      if s.timer == Start { MissedTurn(s.(timer := Off), e, u); }
    case GoOn => MissedGoOn(s, e, u);
  }

  lemma MissedQueueKill(s: State, e: nat)
    requires Open(s)
    ensures Missed(Apply(s, QueueKill), e) == [] || Missed(Apply(s, QueueKill), e) == Missed(s, e)
  {
    var s' := Apply(s, QueueKill);
    assert s'.stack == [KillActive, Pending, CancelTimer] + s.stack;
    if e < |s.stack| { assert s'.stack[|s'.stack| - 1 - e] == s.stack[|s.stack| - 1 - e]; }
    if e + 1 < |s.stack| { assert s'.stack[|s'.stack| - 2 - e] == s.stack[|s.stack| - 2 - e]; }
  }

  // ---------- what holds in every run

  /** A run goes from state to state by the given actions. */
  ghost predicate IsRun(max: nat, emptyCb: bool, run: seq<State>, acts: seq<Action>) {
    && |run| == |acts| + 1 && run[0] == Init(max, emptyCb)
    && forall i :: 0 <= i < |acts| ==> Leads(run[i], acts[i], run[i+1])
  }

  predicate Leads(s: State, a: Action, s': State) {
    Enabled(s, a) && s' == Apply(s, a)
  }

  lemma {:induction false} RunsKeep(max: nat, emptyCb: bool, run: seq<State>, acts: seq<Action>, i: nat)
    requires IsRun(max, emptyCb, run, acts) && i < |run|
    ensures Inv(run[i])
  {
    hide Inv, Enabled, Apply;
    if i > 0 {
      RunsKeep(max, emptyCb, run, acts, i - 1);
      assert Leads(run[i-1], acts[i-1], run[i]);
      StepKeeps(run[i-1], acts[i-1]);
    } else {
      StartKeeps(max, emptyCb);
    }
  }

  lemma StartKeeps(max: nat, emptyCb: bool)
    ensures Inv(Init(max, emptyCb)) && TimerOk(Init(max, emptyCb)) && forall e :: Missed(Init(max, emptyCb), e) == []
  {
  }

  /** In every run: a task is in at most one list, and in one just when it is queued; the count of running tasks is
      right; a queue that says it is empty is. */
  lemma ListsAreRight(max: nat, emptyCb: bool, run: seq<State>, acts: seq<Action>, t: Id)
    requires IsRun(max, emptyCb, run, acts)
    ensures var s := run[|run|-1];
      && !(t in s.active && t in s.inactive)
      && (t in s.tasks && s.tasks[t].queued <==> t in s.active || t in s.inactive)
      && multiset(s.active)[t] <= 1 && multiset(s.inactive)[t] <= 1 && s.runningTasks == |s.active|
      && (s.empty ==> s.active == [] && s.inactive == [])
  {
    RunsKeep(max, emptyCb, run, acts, |run| - 1);
    AtMostOnce(run[|run|-1].active, t);
    AtMostOnce(run[|run|-1].inactive, t);
  }

  lemma {:induction false} AtMostOnce(q: seq<Id>, t: Id)
    requires NoRepeats(q)
    ensures multiset(q)[t] <= 1
  {
    if q != [] {
      assert q == [q[0]] + q[1..] && q[0] !in q[1..] && NoRepeats(q[1..]);
      AtMostOnce(q[1..], t);
    }
  }

  /** Only the loop starts a task that waits, the first one, and never beyond a limit that is set. */
  lemma LoopKeepsLimit(max: nat, emptyCb: bool, run: seq<State>, acts: seq<Action>, a: Action, t: Id)
    requires IsRun(max, emptyCb, run, acts) && Enabled(run[|run|-1], a)
    ensures var s, s' := run[|run|-1], Apply(run[|run|-1], a);
      t in s.inactive && t in s'.active ==>
        && ((a.GoOn? && s.stack[0].Loop?) || (a.TimerFires? && s.timer == Start))
        && t == s.inactive[0] && s'.active == s.active + [t] && (s.max > 0 ==> s'.runningTasks <= s.max)
  {
    hide WalksOk, KillsOk, AllMoved, Missed;
    RunsKeep(max, emptyCb, run, acts, |run| - 1);
    var s := run[|run|-1];
    WithoutFacts(s.active, t);
    if t in s.inactive && t !in s.active { OnlyStarts(s, a, t); }
  }

  lemma OnlyStarts(s: State, a: Action, t: Id)
    requires ListsOk(s) && Enabled(s, a) && t in s.inactive && t !in s.active
    ensures var s' := Apply(s, a);
      t in s'.active ==>
        && ((a.GoOn? && s.stack[0].Loop?) || (a.TimerFires? && s.timer == Start))
        && t == s.inactive[0] && s'.active == s.active + [t] && (s.max > 0 ==> s'.runningTasks <= s.max)
  {
    hide AllMoved;
    forall u ensures t !in Without(s.active, u) {
      WithoutFacts(s.active, u);
    }
  }

  /** A task was added late to the walk of a call of runqueue_kill, and has been waiting since. */
  ghost predicate WaitsSince(run: seq<State>, acts: seq<Action>, t: Id, e: nat, i: nat)
    requires |run| == |acts| + 1
  {
    i < |acts| && AddsLate(run[i], acts[i], t, e) && forall k :: i < k < |run| ==> t in run[k].inactive
  }

  ghost predicate Waits(run: seq<State>, acts: seq<Action>, t: Id, e: nat)
    requires |run| == |acts| + 1
  {
    exists i :: WaitsSince(run, acts, t, e, i)
  }

  ghost predicate SomeWaits(run: seq<State>, acts: seq<Action>, e: nat)
    requires |run| == |acts| + 1
  {
    exists t :: Waits(run, acts, t, e)
  }

  lemma {:induction false} MissedSince(max: nat, emptyCb: bool, run: seq<State>, acts: seq<Action>, t: Id, e: nat,
      j: nat) returns (i: nat)
    requires IsRun(max, emptyCb, run, acts) && j < |run| && t in Missed(run[j], e)
    ensures i < j && AddsLate(run[i], acts[i], t, e) && forall k :: i < k <= j ==> t in run[k].inactive
  {
    hide Inv, Enabled, Apply, Missed, AddsLate;
    StartKeeps(max, emptyCb);
    var s := run[j-1];
    RunsKeep(max, emptyCb, run, acts, j - 1);
    assert Leads(s, acts[j-1], run[j]);
    MissedStep(s, acts[j-1], e, t);
    MissedWaits(run[j], e, t);
    if AddsLate(s, acts[j-1], t, e) {
      i := j - 1;
    } else {
      i := MissedSince(max, emptyCb, run, acts, t, e, j - 1);
    }
  }

  lemma MissedWaits(s: State, e: nat, t: Id)
    requires t in Missed(s, e)
    ensures t in s.inactive
  {
    BeforeIn(s.inactive, None);
    if WalkOf(s, e).Some? { BeforeIn(s.inactive, WalkOf(s, e).value.next); }
  }

  /** When runqueue_kill takes the timer away, exactly the tasks wait that were added late to its walk and have been
      waiting since. */
  lemma LeftBehind(max: nat, emptyCb: bool, run: seq<State>, acts: seq<Action>, t: Id)
    requires IsRun(max, emptyCb, run, acts) && run[|acts|].stack != [] && run[|acts|].stack[0] == CancelTimer
    ensures t in run[|acts|].inactive <==> Waits(run, acts, t, |run[|acts|].stack| - 1)
  {
    var s := run[|acts|];
    if t in s.inactive {
      assert t in Missed(s, |s.stack| - 1);
      var i := MissedSince(max, emptyCb, run, acts, t, |s.stack| - 1, |acts|);
      assert WaitsSince(run, acts, t, |s.stack| - 1, i);
    }
  }

  /** The exact condition: when runqueue_kill is through, the timer is set for what can be started unless, of the tasks
      that callbacks added in front during its walk, or behind while it was at the last task, one has been waiting
      since. */
  lemma KillLeavesTimer(max: nat, emptyCb: bool, run: seq<State>, acts: seq<Action>)
    requires IsRun(max, emptyCb, run, acts) && run[|acts|].stack == [CancelTimer] && Enabled(run[|acts|], GoOn)
    ensures var s, s' := run[|acts|], Apply(run[|acts|], GoOn);
      (CanStart(s') ==> s'.timer == Start) <==>
        s.stopped || (s.max > 0 && |s.active| >= s.max) || !SomeWaits(run, acts, 0)
  {
    hide Inv, WaitsSince, SomeWaits, Enabled, Leads;
    var s := run[|acts|];
    RunsKeep(max, emptyCb, run, acts, |acts|);
    Counted(s);
    SomeLeft(max, emptyCb, run, acts);
  }

  lemma SomeLeft(max: nat, emptyCb: bool, run: seq<State>, acts: seq<Action>)
    requires IsRun(max, emptyCb, run, acts) && run[|acts|].stack == [CancelTimer]
    ensures SomeWaits(run, acts, 0) <==> run[|acts|].inactive != []
  {
    hide Inv, Waits, Enabled, Leads;
    var s := run[|acts|];
    if s.inactive != [] {
      assert s.inactive[0] in s.inactive;
      LeftBehind(max, emptyCb, run, acts, s.inactive[0]);
    }
    if SomeWaits(run, acts, 0) {
      var t :| Waits(run, acts, t, 0);
      LeftBehind(max, emptyCb, run, acts, t);
    }
  }

  lemma Counted(s: State)
    requires Inv(s)
    ensures s.runningTasks == |s.active|
  {
  }

  ghost predicate SomeLate(run: seq<State>, acts: seq<Action>)
    requires |run| == |acts| + 1
  {
    exists i: nat, t, e: nat :: i < |acts| && AddsLate(run[i], acts[i], t, e)
  }

  lemma {:induction false} TimersRight(max: nat, emptyCb: bool, run: seq<State>, acts: seq<Action>, j: nat)
    requires IsRun(max, emptyCb, run, acts) && j < |run|
    ensures SomeLate(run, acts) || TimerOk(run[j])
  {
    hide Inv, Enabled, Apply, AddsLate, TimerOk, Missed;
    StartKeeps(max, emptyCb);
    if j > 0 {
      var s := run[j-1];
      TimersRight(max, emptyCb, run, acts, j - 1);
      RunsKeep(max, emptyCb, run, acts, j - 1);
      assert Leads(s, acts[j-1], run[j]);
      if acts[j-1].GoOn? && s.stack != [] && s.stack[0] == CancelTimer && s.inactive != [] {
        AllMissed(s);
        var i := MissedSince(max, emptyCb, run, acts, s.inactive[0], |s.stack| - 1, j - 1);
      } else if TimerOk(s) {
        StepTimer(s, acts[j-1]);
      }
    }
  }

  lemma AllMissed(s: State)
    requires s.stack != [] && s.stack[0] == CancelTimer
    ensures Missed(s, |s.stack| - 1) == s.inactive
  {
  }

  /** Whenever a task could be started and nothing is left to do behind a callback, the timer is set to start it, in
      every run in which nothing was added late to the walk of a call of runqueue_kill. */
  lemma StartIsDue(max: nat, emptyCb: bool, run: seq<State>, acts: seq<Action>)
    requires IsRun(max, emptyCb, run, acts) && !SomeLate(run, acts)
    ensures var s := run[|acts|];
      CanStart(s) && s.stack == [] ==> s.timer == Start
  {
    hide Inv, SomeLate;
    TimersRight(max, emptyCb, run, acts, |acts|);
    assert !Obliged([]);
  }

  /** It does happen: the callback of the only task that waits adds another one. */
  lemma KillCanStrand() returns (run: seq<State>, acts: seq<Action>)
    ensures IsRun(1, false, run, acts) && var s := run[|acts|]; s.stack == [] && CanStart(s) && s.timer == Off
  {
    run, acts := Visiting();
    var s := run[|acts|];
    var s1 := s.(tasks := s.tasks[1 := Task(true, false, false, true)], inactive := [1]);
    assert Apply(s, TaskAdd(1, false, false)) == s1;
    run, acts := Extended(run, acts, TaskAdd(1, false, false));
    run, acts := Extended(run, acts, GoOn);
    assert run[|acts|] == s1.(stack := [PendingWalk(None), CancelTimer]);
    run, acts := Extended(run, acts, GoOn);
    assert run[|acts|] == s1.(stack := [CancelTimer]);
    run, acts := Extended(run, acts, GoOn);
  }

  lemma Visiting() returns (run: seq<State>, acts: seq<Action>)
    ensures IsRun(1, false, run, acts) && |run| == |acts| + 1
    ensures run[|acts|]
        == State(map[0 := Task(false, false, false, true), 1 := Task(false, false, false, true)], [], [], 0, 1, false,
             false, false, Start, [AfterComplete, PendingWalk(None), CancelTimer])
  {
    run, acts := Killing();
    var s := run[|acts|];
    run, acts := Extended(run, acts, GoOn);
    assert run[|acts|] == s.(stack := [PendingWalk(Some(0)), CancelTimer]);
    assert Without([0], 0) == [] && Behind([0], 0) == None;
    run, acts := Extended(run, acts, GoOn);
    assert run[|acts|].stack == [AfterComplete, PendingWalk(None), CancelTimer];
  }

  lemma Killing() returns (run: seq<State>, acts: seq<Action>)
    ensures IsRun(1, false, run, acts) && |run| == |acts| + 1
    ensures run[|acts|]
        == State(map[0 := Task(true, false, false, true), 1 := Task(false, false, false, true)], [], [0], 0, 1, false,
             false, false, Start, [Pending, CancelTimer])
  {
    run, acts := [Init(1, false)], [];
    hide IsRun;
    run, acts := Extended(run, acts, New(0, true));
    run, acts := Extended(run, acts, New(1, true));
    run, acts := Extended(run, acts, TaskAdd(0, false, false));
    run, acts := Extended(run, acts, QueueKill);
    assert run[|acts|].stack == [KillActive, Pending, CancelTimer];
    run, acts := Extended(run, acts, GoOn);
  }

  lemma Extended(run: seq<State>, acts: seq<Action>, a: Action) returns (run': seq<State>, acts': seq<Action>)
    requires IsRun(1, false, run, acts) && Enabled(run[|acts|], a)
    ensures IsRun(1, false, run', acts') && |run'| == |acts'| + 1 && run'[|acts'|] == Apply(run[|acts|], a)
  {
    hide Enabled, Apply, Init;
    run', acts' := run + [Apply(run[|acts|], a)], acts + [a];
    forall i | 0 <= i < |acts'| ensures Leads(run'[i], acts'[i], run'[i+1]) {
      if i < |acts| { assert Leads(run[i], acts[i], run[i+1]); }
    }
  }
}
