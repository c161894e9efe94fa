/** UbusPoller.java with ubus_wrapper.c: how calling threads and the poller thread hand a call back and forth. A step
    is what a thread does between two points where another can come in: taking a lock, leaving it, or waiting. */
module CallProtocol {
  import opened JsonValue
  import opened Lists

  type Id = nat

  const MAX_INVOKE := 100

  /** The UbusInvokableState an invoker is in */
  datatype Phase = Initialize | Queued | Pending | Canceled | Completed

  /** Where its thread is in remoteInvoke: not there yet; in invokeStart, behind add; in the first wait; in JNICancel,
      behind add; in the last wait; or back. The lock of the invoker is held in Starting and Canceling. */
  datatype Caller = New | Starting | Waiting | Canceling | Awaiting | Returned

  /** ubus_wrap_context: its index and its flags FLAG_REQ_PENDING and FLAG_RET_PENDING */
  datatype Native = NoContext | Context(index: nat, req: bool, ret: bool)

  /** UbusInvoker; started and released count what happened to its native context. */
  datatype Invoker = Invoker(phase: Phase, index: nat, queued: bool, caller: Caller, native: Native, started: nat,
                             released: nat)

  const FRESH := Invoker(Initialize, 0, false, New, NoContext, 0, 0)

  /** What fetchReturn gave back: an index, and whose context it came from, which the poller does not get to see */
  datatype Fetched = Fetched(index: nat, owner: Id)

  /** Where the poller thread is in loop: taking from the queue; in the run of an invoker; behind the last look at the
      queue; working off what it fetched; in completeInvoke, before it has the lock */
  datatype Poller =
    | Looping | Running(u: Id) | Idle | Returning(rest: seq<Fetched>) | Completing(u: Id, rest: seq<Fetched>)

  datatype State = State(invokers: map<Id, Invoker>, queue: seq<Id>, slots: seq<Option<Id>>, last: nat,
                         replies: seq<Id>, poller: Poller)

  function Init(): State {
    State(map[], [], seq(MAX_INVOKE, _ => None), 0, [], Looping)
  }

  function FirstEmpty<T>(slots: seq<Option<T>>, i: nat, end: nat): (r: int)
    requires i <= end <= |slots|
    ensures r == -1 || (i <= r < end && slots[r] == None)
    ensures forall k :: i <= k < (if r == -1 then end else r) ==> slots[k].Some?
    decreases end - i
  {
    if i == end then -1 else if slots[i] == None then i else FirstEmpty(slots, i + 1, end)
  }

  /** The first empty slot from the last one on, going round */
  function FindEmpty<T>(slots: seq<Option<T>>, last: nat): (r: int)
    requires last <= |slots|
    ensures r == -1 <==> forall k :: 0 <= k < |slots| ==> slots[k].Some?
    ensures r != -1 ==> 0 <= r < |slots| && slots[r] == None
    ensures r >= last ==> forall k :: last <= k < r ==> slots[k].Some?
    ensures 0 <= r < last ==> forall k :: 0 <= k < |slots| && (k < r || k >= last) ==> slots[k].Some?
  {
    var r := FirstEmpty(slots, last, |slots|);
    if r != -1 then r else FirstEmpty(slots, 0, last)
  }

  /** mPendingInvoke and mLastIndex */
  class SlotTable {
    const pending: array<Option<Id>>
    var lastIndex: nat

    constructor ()
      ensures pending.Length == MAX_INVOKE && lastIndex == 0 && pending[..] == Init().slots
    {
      pending := new Option<Id>[MAX_INVOKE](_ => None);
      lastIndex := 0;
    }

    method SetInvokeSlot(index: nat, invoker: Option<Id>)
      requires index < pending.Length
      modifies pending
      ensures pending[..] == old(pending[..])[index := invoker]
    {
      pending[index] := invoker;
    }

    method FindEmptyInvokeSlot() returns (index: int)
      requires lastIndex <= pending.Length
      modifies this`lastIndex
      ensures index == FindEmpty(pending[..], old(lastIndex))
        && lastIndex == if index == -1 then old(lastIndex) else index
    {
      var i := lastIndex;
      while i < pending.Length
        invariant lastIndex <= i <= pending.Length
        invariant FirstEmpty(pending[..], lastIndex, pending.Length) == FirstEmpty(pending[..], i, pending.Length)
      {
        if pending[i] == None {
          lastIndex := i;
          return i;
        }
        i := i + 1;
      }
      i := 0;
      while i < lastIndex
        invariant i <= lastIndex && FirstEmpty(pending[..], 0, lastIndex) == FirstEmpty(pending[..], i, lastIndex)
      {
        if pending[i] == None {
          lastIndex := i;
          return i;
        }
        i := i + 1;
      }
      return -1;
    }
  }

  datatype Action =
    | Create(u: Id) | Start(u: Id) | Started(u: Id) | Cancel(u: Id) | EndCancel(u: Id) | Wake(u: Id)  // of a caller
    | Dequeue | Run(u: Id, accepted: bool) | SeeEmpty | Fetch | Return | Complete(u: Id)              // of the poller
    | Deliver(u: Id)                                                                                  // of the bus

  predicate Locked(v: Invoker) {
    v.caller.Starting? || v.caller.Canceling?
  }

  predicate Enabled(s: State, a: Action) {
    match a
    case Create(u) => u !in s.invokers
    case Start(u) => u in s.invokers && s.invokers[u].caller == New
    case Started(u) => u in s.invokers && s.invokers[u].caller == Starting
    case Cancel(u) => u in s.invokers && s.invokers[u].caller == Waiting
    case EndCancel(u) => u in s.invokers && s.invokers[u].caller == Canceling
    case Wake(u) => u in s.invokers && s.invokers[u].caller == Awaiting
    case Dequeue => s.poller == Looping && s.queue != [] && s.queue[0] in s.invokers
    case Run(u, _) =>
      && s.poller == Running(u) && u in s.invokers && !Locked(s.invokers[u])
      && s.last <= |s.slots| && s.invokers[u].index < |s.slots|
    case SeeEmpty => s.poller == Looping && s.queue == []
    case Fetch => s.poller == Idle && forall u :: u in s.replies ==> u in s.invokers && s.invokers[u].native.Context?
    case Return => s.poller.Returning? && (s.poller.rest != [] ==> s.poller.rest[0].index < |s.slots|)
    case Complete(u) =>
      s.poller.Completing? && s.poller.u == u && u in s.invokers && !Locked(s.invokers[u])
        && s.invokers[u].index < |s.slots|
    case Deliver(u) => u in s.invokers && s.invokers[u].native.Context? && s.invokers[u].native.req
  }

  function Set(s: State, u: Id, v: Invoker): State {
    s.(invokers := s.invokers[u := v])
  }

  /** UbusPoller.add */
  function Add(s: State, u: Id): State
    requires u in s.invokers
  {
    if s.invokers[u].queued then s else Set(s, u, s.invokers[u].(queued := true)).(queue := s.queue + [u])
  }

  function At(s: State, u: Id, caller: Caller): State
    requires u in s.invokers
  {
    Set(s, u, s.invokers[u].(caller := caller))
  }

  /** UbusJNI.release */
  function Released(v: Invoker): Invoker {
    if v.native.Context? then v.(native := NoContext, released := v.released + 1) else v
  }

  function Without(q: seq<Id>, u: Id): (r: seq<Id>)
    ensures forall v :: v in r <==> v in q && v != u
  {
    if q == [] then [] else if q[0] == u then Without(q[1..], u) else [q[0]] + Without(q[1..], u)
  }

  /** UbusInvokableState.cancel, and the check behind it */
  function CancelStep(s: State, u: Id): State
    requires u in s.invokers
  {
    var v := s.invokers[u];
    match v.phase
    case Queued => Set(s, u, v.(phase := Completed, caller := Returned))
    case Pending => At(Add(s, u), u, Canceling)
    case Completed => At(s, u, Returned)
    case _ => At(s, u, Awaiting)
  }

  /** UbusInvokableState.run; an invoker that was not started yet would throw. */
  function RunStep(s: State, u: Id, accepted: bool): State
    requires u in s.invokers && s.last <= |s.slots| && s.invokers[u].index < |s.slots|
  {
    var v := s.invokers[u];
    var s := s.(poller := Looping);
    match v.phase
    case Queued =>
      var i := FindEmpty(s.slots, s.last);
      if i == -1 then Set(s, u, v.(phase := Completed))
      else
        Set(s, u, v.(phase := Pending, index := i, native := Context(i, accepted, !accepted), started := v.started + 1))
          .(slots := s.slots[i := Some(u)], last := i, replies := if accepted then s.replies else s.replies + [u])
    case Canceled =>
      Set(s, u, Released(v).(phase := Completed)).(slots := s.slots[v.index := None], replies := Without(s.replies, u))
    case Completed => Set(s, u, v.(phase := Completed))
    case _ => s
  }

  function Min(a: nat, b: nat): (m: nat)
    ensures m <= a && m <= b
  {
    if a < b then a else b
  }

  function Apply(s: State, a: Action): State
    requires Enabled(s, a)
  {
    match a
    case Create(u) => Set(s, u, FRESH)
    case Start(u) => if s.invokers[u].phase == Initialize then At(Add(s, u), u, Starting) else At(s, u, Waiting)
    case Started(u) => Set(s, u, s.invokers[u].(phase := Queued, caller := Waiting))
    case Cancel(u) => CancelStep(s, u)
    case EndCancel(u) => Set(s, u, s.invokers[u].(phase := Canceled, caller := Awaiting))
    case Wake(u) => if s.invokers[u].phase == Completed then At(s, u, Returned) else s
    case Dequeue =>
      var u := s.queue[0];
      Set(s, u, s.invokers[u].(queued := false)).(queue := s.queue[1..], poller := Running(u))
    case Run(u, accepted) => RunStep(s, u, accepted)
    case SeeEmpty => s.(poller := Idle)
    case Fetch =>
      var n := Min(MAX_INVOKE, |s.replies|);
      var taken := s.replies[..n];
      s.(poller := Returning(seq(n, k requires 0 <= k < n =>
                                      Fetched(s.invokers[s.replies[k]].native.index, s.replies[k]))),
         replies := s.replies[n..],
         invokers := map u | u in s.invokers ::
           if u in taken then s.invokers[u].(native := s.invokers[u].native.(ret := false)) else s.invokers[u])
    case Return =>
      var rest := s.poller.rest;
      if rest == [] then s.(poller := Looping)
      else match s.slots[rest[0].index] {
        case None => s.(poller := Returning(rest[1..]))
        case Some(u) => s.(slots := s.slots[rest[0].index := None], poller := Completing(u, rest[1..]))
      }
    case Complete(u) =>
      var v := s.invokers[u];
      Set(s, u, Released(v).(phase := Completed))
        .(slots := s.slots[v.index := None], replies := Without(s.replies, u), poller := Returning(s.poller.rest))
    case Deliver(u) =>
      Set(s, u, s.invokers[u].(native := s.invokers[u].native.(req := false, ret := true))).(replies := s.replies + [u])
  }

  // ---------- what every step keeps

  predicate IsCompleting(s: State, u: Id) {
    s.poller.Completing? && s.poller.u == u
  }

  function Rest(s: State): seq<Fetched> {
    if s.poller.Returning? || s.poller.Completing? then s.poller.rest else []
  }

  /** The poller holds the index of u, or has just given up its slot. */
  predicate IsFetched(s: State, u: Id) {
    IsCompleting(s, u) || exists f :: f in Rest(s) && f.owner == u
  }

  /** Phase, caller and native context of an invoker go together. */
  predicate InvokerOk(v: Invoker, running: bool, completing: bool) {
    var due := v.queued || running;
    && !(v.queued && running)
    && (v.native.Context? <==> v.phase in {Pending, Canceled})
    && v.started == v.released + (if v.native.Context? then 1 else 0) <= 1
    && (v.native.Context? ==> v.native.index == v.index && !(v.native.req && v.native.ret))
    && (completing ==> v.native.Context? && !v.native.req && !v.native.ret)
    && match v.phase {
      case Initialize => v.started == 0 && if due then v.caller == Starting else v.caller == New
      case Queued => v.started == 0 && due && v.caller == Waiting
      case Pending => if due then v.caller == Canceling else v.caller == Waiting
      case Canceled => due && v.caller == Awaiting
      case Completed => v.caller in {Waiting, Awaiting, Returned}
    }
  }

  ghost predicate InvokersOk(s: State) {
    forall u :: u in s.invokers ==> InvokerOk(s.invokers[u], s.poller == Running(u), IsCompleting(s, u))
  }

  /** An invoker with a native context has the slot of that index, unless the poller has just taken it away. */
  ghost predicate SlotsOk(s: State) {
    && |s.slots| == MAX_INVOKE && s.last < MAX_INVOKE
    && (forall i :: 0 <= i < |s.slots| && s.slots[i].Some? ==> HasSlot(s, s.slots[i].value, i))
    && (forall u :: u in s.invokers ==> s.invokers[u].index < MAX_INVOKE)
    && (forall u :: u in s.invokers && s.invokers[u].native.Context? ==>
        s.slots[s.invokers[u].index] == if IsCompleting(s, u) then None else Some(u))
  }

  predicate HasSlot(s: State, u: Id, i: nat) {
    u in s.invokers && !IsCompleting(s, u) && s.invokers[u].native.Context? && s.invokers[u].index == i
  }

  ghost predicate QueueOk(s: State) {
    && Distinct(s.queue)
    && (forall u :: u in s.queue ==> u in s.invokers && s.invokers[u].queued)
    && (forall u :: u in s.invokers && s.invokers[u].queued ==> u in s.queue)
  }

  ghost predicate ReturnsOk(s: State) {
    && Distinct(s.replies)
    && (forall u :: u in s.replies ==> u in s.invokers && s.invokers[u].native.Context? && s.invokers[u].native.ret)
    && (forall u :: u in s.invokers && s.invokers[u].native.Context? && s.invokers[u].native.ret ==> u in s.replies)
  }

  predicate OwnersDiffer(rest: seq<Fetched>) {
    forall i, j :: 0 <= i < j < |rest| ==> rest[i].owner != rest[j].owner
  }

  /** Every fetched index leads to the invoker it came from, and every call is on its way. */
  ghost predicate FetchedOk(s: State) {
    && OwnersDiffer(Rest(s))
    && (forall f :: f in Rest(s) ==> NamesOwner(s, f))
    && (forall u ::
          u in s.invokers && s.invokers[u].native.Context? && !s.invokers[u].native.req && !s.invokers[u].native.ret ==>
            IsFetched(s, u))
    && (s.poller.Running? || s.poller.Completing? ==> s.poller.u in s.invokers)
  }

  predicate NamesOwner(s: State, f: Fetched) {
    && f.owner in s.invokers && !IsCompleting(s, f.owner)
    && s.invokers[f.owner].native == Context(f.index, false, false) && s.invokers[f.owner].index == f.index
  }

  ghost predicate Inv(s: State) {
    InvokersOk(s) && SlotsOk(s) && QueueOk(s) && ReturnsOk(s) && FetchedOk(s)
  }

  lemma {:induction false} WithoutDistinct(q: seq<Id>, u: Id)
    requires Distinct(q)
    ensures Distinct(Without(q, u))
  {
    if q != [] {
      assert Distinct(q[1..]) && q[0] !in q[1..];
      WithoutDistinct(q[1..], u);
    }
  }

  lemma InitOk()
    ensures Inv(Init())
  {
  }

  /** A caller changes nothing but the phase of its invoker, and the queue. */
  ghost predicate CallerMoved(s: State, s': State, u: Id) {
    && s'.(invokers := s.invokers, queue := s.queue) == s && s'.invokers.Keys == s.invokers.Keys && u in s.invokers
    && (forall v :: v in s.invokers && v != u ==> s'.invokers[v] == s.invokers[v])
    && s'.invokers[u].native == s.invokers[u].native && s'.invokers[u].index == s.invokers[u].index
  }

  lemma CallerMovedKeeps(s: State, s': State, u: Id)
    requires SlotsOk(s) && ReturnsOk(s) && FetchedOk(s) && CallerMoved(s, s', u)
    ensures SlotsOk(s') && ReturnsOk(s') && FetchedOk(s')
  {
    forall f | f in Rest(s') ensures NamesOwner(s', f) {
      assert NamesOwner(s, f);
    }
    forall v | v in s'.invokers && s'.invokers[v].native.Context? && !s'.invokers[v].native.req
      && !s'.invokers[v].native.ret
      ensures IsFetched(s', v)
    {
      assert IsFetched(s, v);
    }
    forall i | 0 <= i < |s'.slots| && s'.slots[i].Some? ensures HasSlot(s', s'.slots[i].value, i) {
      assert HasSlot(s, s.slots[i].value, i);
    }
  }

  lemma AddKeeps(s: State, u: Id)
    requires QueueOk(s) && u in s.invokers
    ensures var s' := Add(s, u);
      QueueOk(s') && CallerMoved(s, s', u) && s'.invokers[u] == s.invokers[u].(queued := true)
  {
    var s' := Add(s, u);
    if !s.invokers[u].queued {
      assert s'.queue[|s.queue|] == u;
      assert forall v :: v in s.queue ==> v in s'.queue;
    }
  }

  /** The steps of the callers */
  predicate IsCallers(a: Action) {
    a.Start? || a.Started? || a.Cancel? || a.EndCancel? || a.Wake?
  }

  lemma CallerKeeps(s: State, a: Action)
    requires Inv(s) && Enabled(s, a) && IsCallers(a)
    ensures Inv(Apply(s, a))
  {
    hide SlotsOk, ReturnsOk, FetchedOk, InvokersOk, QueueOk, Enabled, Apply;
    CallerMoves(s, a);
    CallerMovedKeeps(s, Apply(s, a), a.u);
    CallerFits(s, a);
  }

  lemma CallerMoves(s: State, a: Action)
    requires QueueOk(s) && Enabled(s, a) && IsCallers(a)
    ensures CallerMoved(s, Apply(s, a), a.u) && QueueOk(Apply(s, a))
  {
    hide QueueOk, Add;
    var u, s' := a.u, Apply(s, a);
    AddKeeps(s, u);
    var adds := (a.Start? && s.invokers[u].phase == Initialize) || (a.Cancel? && s.invokers[u].phase == Pending);
    SameQueue(if adds then Add(s, u) else s, s', u);
  }

  lemma SameQueue(s: State, s': State, u: Id)
    requires QueueOk(s) && CallerMoved(s, s', u) && s'.queue == s.queue && s'.invokers[u].queued == s.invokers[u].queued
    ensures QueueOk(s')
  {
  }

  lemma CallerFits(s: State, a: Action)
    requires InvokersOk(s) && Enabled(s, a) && IsCallers(a) && CallerMoved(s, Apply(s, a), a.u)
    ensures InvokersOk(Apply(s, a))
  {
    hide InvokerOk, Enabled, Apply;
    OneFits(s, a);
  }

  lemma OneFits(s: State, a: Action)
    requires InvokersOk(s) && Enabled(s, a) && IsCallers(a) && a.u in s.invokers
    ensures a.u in Apply(s, a).invokers
      && InvokerOk(Apply(s, a).invokers[a.u], s.poller == Running(a.u), IsCompleting(s, a.u))
  {
    assert InvokerOk(s.invokers[a.u], s.poller == Running(a.u), IsCompleting(s, a.u));
    hide InvokersOk;
  }

  lemma CreateKeeps(s: State, u: Id)
    requires Inv(s) && Enabled(s, Create(u))
    ensures Inv(Apply(s, Create(u)))
  {
    var s' := Apply(s, Create(u));
    forall f | f in Rest(s') ensures NamesOwner(s', f) {
      assert NamesOwner(s, f);
    }
  }

  /** The poller goes on without a change to native contexts or slots. */
  lemma PollerMovedKeeps(s: State, s': State)
    requires SlotsOk(s) && ReturnsOk(s) && FetchedOk(s)
      && s'.(invokers := s.invokers, queue := s.queue, poller := s.poller) == s
    requires s'.invokers.Keys == s.invokers.Keys
    requires forall v :: v in s.invokers ==>
      s'.invokers[v].native == s.invokers[v].native && s'.invokers[v].index == s.invokers[v].index
    requires Rest(s) == Rest(s') == [] && !s.poller.Completing? && !s'.poller.Completing?
      && (s'.poller.Running? ==> s'.poller.u in s.invokers)
    ensures SlotsOk(s') && ReturnsOk(s') && FetchedOk(s')
  {
    forall i | 0 <= i < |s'.slots| && s'.slots[i].Some? ensures HasSlot(s', s'.slots[i].value, i) {
      assert HasSlot(s, s.slots[i].value, i);
    }
    forall v | v in s'.invokers && s'.invokers[v].native.Context? && !s'.invokers[v].native.req
      && !s'.invokers[v].native.ret
      ensures IsFetched(s', v)
    {
      assert IsFetched(s, v);
    }
  }

  /** A call whose index the poller does not hold is pending on the bus, or among the replies. */
  lemma Unfetched(s: State)
    requires FetchedOk(s) && Rest(s) == [] && !s.poller.Completing?
    ensures forall v :: v in s.invokers && s.invokers[v].native.Context? ==>
      s.invokers[v].native.req || s.invokers[v].native.ret
  {
    forall v | v in s.invokers && s.invokers[v].native.Context?
      ensures s.invokers[v].native.req || s.invokers[v].native.ret {
      assert !IsFetched(s, v);
    }
  }

  lemma DequeueKeeps(s: State)
    requires Inv(s) && Enabled(s, Dequeue)
    ensures Inv(Apply(s, Dequeue))
  {
    hide SlotsOk, ReturnsOk, FetchedOk;
    PollerMovedKeeps(s, Apply(s, Dequeue));
  }

  lemma SeeEmptyKeeps(s: State)
    requires Inv(s) && Enabled(s, SeeEmpty)
    ensures Inv(Apply(s, SeeEmpty))
  {
    hide SlotsOk, ReturnsOk, FetchedOk;
    PollerMovedKeeps(s, Apply(s, SeeEmpty));
  }

  lemma RunKeeps(s: State, u: Id, accepted: bool)
    requires Inv(s) && Enabled(s, Run(u, accepted))
    ensures Inv(Apply(s, Run(u, accepted)))
  {
    hide Inv, FindEmpty;
    var v, i := s.invokers[u], FindEmpty(s.slots, s.last);
    if v.phase == Queued && i != -1 {
      InvokeKeeps(s, u, accepted);
    } else if v.phase == Canceled {
      AbortKeeps(s, u);
    } else {
      NoCallKeeps(s, u, accepted);
    }
  }

  /** There is no call to start or to give up. */
  lemma NoCallKeeps(s: State, u: Id, accepted: bool)
    requires Inv(s) && Enabled(s, Run(u, accepted)) && s.invokers[u].phase != Canceled
    requires s.invokers[u].phase == Queued ==> FindEmpty(s.slots, s.last) == -1
    ensures Inv(RunStep(s, u, accepted))
  {
    hide SlotsOk, ReturnsOk, FetchedOk, Distinct;
    var s' := RunStep(s, u, accepted);
    PollerMovedKeeps(s, s');
    forall v | v in s'.invokers ensures InvokerOk(s'.invokers[v], s'.poller == Running(v), IsCompleting(s', v)) {
      assert InvokerOk(s.invokers[v], s.poller == Running(v), IsCompleting(s, v));
    }
  }

  lemma ReplyAdded(s: State, s': State, u: Id)
    requires ReturnsOk(s) && u !in s.replies && s'.replies == s.replies + [u] && s'.invokers.Keys == s.invokers.Keys
      && u in s.invokers
    requires s'.invokers[u].native.Context? && s'.invokers[u].native.ret
    requires forall v :: v in s.invokers && v != u ==> s'.invokers[v] == s.invokers[v]
    ensures ReturnsOk(s')
  {
    assert s'.replies[|s.replies|] == u && forall v :: v in s.replies ==> v in s'.replies;
  }

  /** Where u comes to when its call is sent, with slot i */
  ghost predicate Invoked(s: State, s': State, u: Id, accepted: bool, i: nat) {
    && u in s.invokers && i < |s.slots| && s.slots[i] == None
    && s'.invokers == s.invokers[u := s.invokers[u].(phase := Pending, index := i,
                                                     native := Context(i, accepted, !accepted),
                                                     started := s.invokers[u].started + 1)]
    && s'.slots == s.slots[i := Some(u)] && s'.last == i && s'.queue == s.queue
    && s'.replies == (if accepted then s.replies else s.replies + [u]) && s'.poller == Looping
  }

  /** A call gets a slot, and its native context. */
  lemma InvokeKeeps(s: State, u: Id, accepted: bool)
    requires Inv(s) && s.poller == Running(u) && u in s.invokers && s.invokers[u].phase == Queued && s.last <= |s.slots|
    requires FindEmpty(s.slots, s.last) != -1
    ensures Inv(RunStep(s, u, accepted))
  {
    var i: nat, s' := FindEmpty(s.slots, s.last), RunStep(s, u, accepted);
    assert Invoked(s, s', u, accepted, i);
    assert InvokerOk(s.invokers[u], true, false);
    hide RunStep, FindEmpty;
    InvokedSlots(s, s', u, accepted, i);
    InvokedReplies(s, s', u, accepted, i);
    InvokedRest(s, s', u, accepted, i);
  }

  lemma InvokedSlots(s: State, s': State, u: Id, accepted: bool, i: nat)
    requires Invoked(s, s', u, accepted, i) && SlotsOk(s) && s.poller == Running(u) && !s.invokers[u].native.Context?
    ensures SlotsOk(s')
  {
    forall j | 0 <= j < |s'.slots| && s'.slots[j].Some? ensures HasSlot(s', s'.slots[j].value, j) {
      if j != i { assert HasSlot(s, s.slots[j].value, j); }
    }
  }

  lemma InvokedReplies(s: State, s': State, u: Id, accepted: bool, i: nat)
    requires Invoked(s, s', u, accepted, i) && ReturnsOk(s) && !s.invokers[u].native.Context?
    ensures ReturnsOk(s')
  {
    hide Distinct;
    if !accepted { ReplyAdded(s, s', u); }
  }

  lemma InvokedRest(s: State, s': State, u: Id, accepted: bool, i: nat)
    requires Invoked(s, s', u, accepted, i) && s.poller == Running(u) && s.invokers[u].phase == Queued
    requires InvokersOk(s) && QueueOk(s) && FetchedOk(s)
    ensures InvokersOk(s') && QueueOk(s') && FetchedOk(s')
  {
    Unfetched(s);
    hide Distinct;
  }

  /** A native context goes, and its slot with it. */
  ghost predicate LetGo(s: State, s': State, u: Id) {
    && s'.invokers.Keys == s.invokers.Keys && u in s.invokers && s.invokers[u].native.Context?
      && s'.invokers[u].native == NoContext
    && (forall v :: v in s.invokers && v != u ==> s'.invokers[v] == s.invokers[v])
      && s'.invokers[u].index == s.invokers[u].index
    && s.invokers[u].index < |s.slots| && s'.slots == s.slots[s.invokers[u].index := None] && s'.last == s.last
    && s'.replies == Without(s.replies, u) && !s'.poller.Completing? && (s.poller.Completing? ==> s.poller.u == u)
  }

  lemma LetGoKeeps(s: State, s': State, u: Id)
    requires SlotsOk(s) && ReturnsOk(s) && LetGo(s, s', u)
    ensures SlotsOk(s') && ReturnsOk(s')
  {
    WithoutDistinct(s.replies, u);
    forall i | 0 <= i < |s'.slots| && s'.slots[i].Some? ensures HasSlot(s', s'.slots[i].value, i) {
      assert HasSlot(s, s.slots[i].value, i);
    }
  }

  lemma AbortKeeps(s: State, u: Id)
    requires Inv(s) && s.poller == Running(u) && u in s.invokers && s.invokers[u].phase == Canceled
    requires s.last <= |s.slots| && s.invokers[u].index < |s.slots|
    ensures Inv(RunStep(s, u, false)) && RunStep(s, u, true) == RunStep(s, u, false)
  {
    var s' := RunStep(s, u, false);
    LetGoKeeps(s, s', u);
    Unfetched(s);
    hide SlotsOk, ReturnsOk, Without, Distinct;
  }

  lemma CompleteKeeps(s: State, u: Id)
    requires Inv(s) && Enabled(s, Complete(u))
    ensures Inv(Apply(s, Complete(u)))
  {
    var s' := Apply(s, Complete(u));
    LetGoKeeps(s, s', u);
    hide SlotsOk, ReturnsOk, Without, Distinct, OwnersDiffer;
    assert Rest(s') == Rest(s);
    forall f | f in Rest(s') ensures NamesOwner(s', f) {
      assert NamesOwner(s, f);
    }
    forall v | v in s'.invokers && s'.invokers[v].native.Context? && !s'.invokers[v].native.req
      && !s'.invokers[v].native.ret
      ensures IsFetched(s', v)
    {
      assert IsFetched(s, v);
    }
  }

  lemma DeliverKeeps(s: State, u: Id)
    requires Inv(s) && Enabled(s, Deliver(u))
    ensures Inv(Apply(s, Deliver(u)))
  {
    var s' := Apply(s, Deliver(u));
    assert Rest(s') == Rest(s);
    ReplyAdded(s, s', u);
    hide Distinct;
    forall f | f in Rest(s') ensures NamesOwner(s', f) {
      assert NamesOwner(s, f);
    }
    forall i | 0 <= i < |s'.slots| && s'.slots[i].Some? ensures HasSlot(s', s'.slots[i].value, i) {
      assert HasSlot(s, s.slots[i].value, i);
    }
    forall v | v in s'.invokers && s'.invokers[v].native.Context? && !s'.invokers[v].native.req
      && !s'.invokers[v].native.ret
      ensures IsFetched(s', v)
    {
      assert IsFetched(s, v);
    }
  }

  /** What the poller fetches are the indices of contexts that replied. */
  lemma FetchGives(s: State)
    requires ReturnsOk(s) && SlotsOk(s) && FetchedOk(s) && InvokersOk(s) && Enabled(s, Fetch)
    ensures FetchedOk(Apply(s, Fetch))
  {
    hide Min;
    var s', n := Apply(s, Fetch), Min(MAX_INVOKE, |s.replies|);
    var taken := s.replies[..n];
    assert |Rest(s')| == n && forall k :: 0 <= k < n ==> Rest(s')[k].owner == s.replies[k];
    forall f | f in Rest(s') ensures NamesOwner(s', f) {
      var k :| 0 <= k < n && Rest(s')[k] == f;
      assert taken[k] == f.owner && s.replies[k] in s.replies;
    }
    forall v | v in s'.invokers && s'.invokers[v].native.Context? && !s'.invokers[v].native.req
      && !s'.invokers[v].native.ret
      ensures IsFetched(s', v)
    {
      if v in taken {
        var k :| 0 <= k < n && taken[k] == v;
        assert Rest(s')[k] in Rest(s') && Rest(s')[k].owner == v;
      }
    }
    Unfetched(s);
  }

  lemma FetchKeeps(s: State)
    requires Inv(s) && Enabled(s, Fetch)
    ensures Inv(Apply(s, Fetch))
  {
    hide Distinct, Min, FetchedOk;
    FetchGives(s);
    var s', n := Apply(s, Fetch), Min(MAX_INVOKE, |s.replies|);
    forall i | 0 <= i < |s'.slots| && s'.slots[i].Some? ensures HasSlot(s', s'.slots[i].value, i) {
      assert HasSlot(s, s.slots[i].value, i);
    }
    RepliesLeft(s, n);
  }

  lemma RepliesLeft(s: State, n: nat)
    requires Distinct(s.replies) && n <= |s.replies|
    ensures Distinct(s.replies[n..]) && forall u :: u in s.replies[n..] <==> u in s.replies && u !in s.replies[..n]
  {
    assert s.replies == s.replies[..n] + s.replies[n..];
  }

  lemma ReturnKeeps(s: State)
    requires Inv(s) && Enabled(s, Return)
    ensures Inv(Apply(s, Return))
  {
    var s', rest := Apply(s, Return), Rest(s);
    if rest != [] {
      assert NamesOwner(s, rest[0]);
      assert s' == s.(slots := s.slots[rest[0].index := None], poller := Completing(rest[0].owner, rest[1..]));
      assert forall f :: f in rest[1..] ==> f in rest;
    }
    forall f | f in Rest(s') ensures NamesOwner(s', f) {
      assert NamesOwner(s, f);
    }
    forall i | 0 <= i < |s'.slots| && s'.slots[i].Some? ensures HasSlot(s', s'.slots[i].value, i) {
      assert HasSlot(s, s.slots[i].value, i);
    }
    forall v | v in s'.invokers && s'.invokers[v].native.Context? && !s'.invokers[v].native.req
      && !s'.invokers[v].native.ret
      ensures IsFetched(s', v)
    {
      var f :| f in rest && f.owner == v;
      if f != rest[0] { assert f in rest[1..]; }
    }
  }

  lemma StepKeeps(s: State, a: Action)
    requires Inv(s) && Enabled(s, a)
    ensures Inv(Apply(s, a))
  {
    hide Inv, Enabled, Apply;
    match a
    case Create(u) => CreateKeeps(s, u);
    case Run(u, accepted) => RunKeeps(s, u, accepted);
    case Dequeue => DequeueKeeps(s);
    case SeeEmpty => SeeEmptyKeeps(s);
    case Fetch => FetchKeeps(s);
    case Return => ReturnKeeps(s);
    case Complete(u) => CompleteKeeps(s, u);
    case Deliver(u) => DeliverKeeps(s, u);
    case _ => CallerKeeps(s, a);
  }

  // ---------- what holds in every run

  predicate Leads(s: State, a: Action, s': State) {
    Enabled(s, a) && s' == Apply(s, a)
  }

  ghost predicate Step(s: State, s': State) {
    exists a :: Leads(s, a, s')
  }

  ghost predicate IsRun(run: seq<State>) {
    run != [] && run[0] == Init() && forall i :: 0 < i < |run| ==> Step(run[i-1], run[i])
  }

  lemma {:induction false} RunsKeep(run: seq<State>, i: nat)
    requires IsRun(run) && i < |run|
    ensures Inv(run[i])
  {
    hide Inv, Enabled, Apply;
    InitOk();
    if i > 0 {
      RunsKeep(run, i - 1);
      assert Step(run[i-1], run[i]);
      var a :| Leads(run[i-1], a, run[i]);
      StepKeeps(run[i-1], a);
    }
  }

  /** A slot holds an invoker that has this index and no other, and whose call is on its way. */
  lemma SlotsAreRight(run: seq<State>, i: nat, j: nat)
    requires IsRun(run)
    ensures var s := run[|run|-1];
      i < |s.slots| && s.slots[i].Some? ==>
        var u := s.slots[i].value;
        && u in s.invokers && s.invokers[u].index == i && s.invokers[u].phase in {Pending, Canceled}
        && (j < |s.slots| && s.slots[j] == Some(u) ==> j == i)
  {
    RunsKeep(run, |run| - 1);
    var s := run[|run|-1];
    if i < |s.slots| && s.slots[i].Some? { assert HasSlot(s, s.slots[i].value, i); }
    if j < |s.slots| && s.slots[j].Some? { assert HasSlot(s, s.slots[j].value, j); }
  }

  /** The index the poller reads next is that of the invoker whose call returned, so the right one is completed. */
  lemma FetchedIsRight(run: seq<State>)
    requires IsRun(run)
    ensures var s := run[|run|-1];
      s.poller.Returning? && s.poller.rest != [] ==>
        var f := s.poller.rest[0];
        && f.index < |s.slots| && s.slots[f.index] == Some(f.owner)
        && Apply(s, Return).poller == Completing(f.owner, s.poller.rest[1..])
  {
    RunsKeep(run, |run| - 1);
    var s := run[|run|-1];
    if Rest(s) != [] { assert NamesOwner(s, Rest(s)[0]); }
  }

  /** remoteInvoke comes back only when all is done: no slot is left, and the native context, if the call had
      one, was released, once. */
  lemma ReturnedIsDone(run: seq<State>, u: Id)
    requires IsRun(run)
    ensures var s := run[|run|-1];
      u in s.invokers && s.invokers[u].caller == Returned ==>
        && s.invokers[u].phase == Completed && s.invokers[u].native == NoContext
        && s.invokers[u].started == s.invokers[u].released <= 1 && !IsCompleting(s, u) && Some(u) !in s.slots
  {
    RunsKeep(run, |run| - 1);
    var s := run[|run|-1];
    forall i | 0 <= i < |s.slots| && s.slots[i].Some? ensures HasSlot(s, s.slots[i].value, i) {}
  }

  /** The poller never runs an invoker that was not started, which would throw, and never starts a call on a context
      that is in use, which would fail an assertion. */
  lemma RunIsSafe(run: seq<State>, u: Id, accepted: bool)
    requires IsRun(run) && Enabled(run[|run|-1], Run(u, accepted))
    ensures var v := run[|run|-1].invokers[u]; v.phase != Initialize && (v.phase == Queued ==> v.native == NoContext)
  {
    RunsKeep(run, |run| - 1);
  }

  /** Nobody waits in vain: as long as the call is not completed, the queue or the poller has the invoker, or the bus
      owes its reply, or the reply is there to be fetched. */
  lemma NobodyIsForgotten(run: seq<State>, u: Id)
    requires IsRun(run)
    ensures var s := run[|run|-1];
      u in s.invokers && s.invokers[u].caller in {Waiting, Awaiting} && s.invokers[u].phase != Completed ==>
        if s.invokers[u].phase == Pending then
          (s.invokers[u].native.Context? && s.invokers[u].native.req) || u in s.replies || IsFetched(s, u)
        else u in s.queue || s.poller == Running(u)
  {
    RunsKeep(run, |run| - 1);
  }
}
