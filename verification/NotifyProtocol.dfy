/** A notification on its way: the request of the notifier, the broker (ubus/ubusd_proto.c), which lists the subscribers
    and passes the call on to them, and their answers, which come back by way of the broker. */
module NotifyProtocol {
  import opened NotifyRequest

  /** A status message to the notifier: the object it is from and, from the broker itself, the subscribers */
  datatype Message = Message(peer: Id, subs: seq<Id>)

  /** obj is the notifying object, subs its subscribers when the broker handled the notification, wire what is on the
      way to the notifier, and owed who has not answered yet; heard, arrived and lost tell what happened: that the
      status of the broker arrived, whose answers arrived, and whose the broker had to drop. */
  datatype State = State(req: Request, obj: Id, told: bool, subs: seq<Id>, wire: seq<Message>, owed: multiset<Id>,
                         heard: bool, arrived: multiset<Id>, lost: multiset<Id>)

  function Begin(obj: Id): State {
    State(Fresh(obj), obj, false, [], [], multiset{}, false, multiset{}, multiset{})
  }

  datatype Action = Notify(subs: seq<Id>) | Answer(x: Id) | Drop(x: Id) | Deliver | DataBegins | DataEnds

  predicate Enabled(s: State, a: Action) {
    match a
    case Notify(subs) => !s.told && s.obj !in subs  // nobody subscribes to an object of its own
    case Answer(x) => x in s.owed
    case Drop(x) => x in s.owed
    case Deliver => s.wire != [] && |s.req.ids| == MAX_PEERS + 1
    case DataBegins => s.req.listed && !s.req.blocked
    case DataEnds => s.req.blocked
  }

  function Apply(s: State, a: Action): State
    requires Enabled(s, a)
  {
    match a
    case Notify(subs) => s.(told := true, subs := subs, wire := s.wire + [Message(s.obj, subs)], owed := multiset(subs))
    case Answer(x) => s.(owed := s.owed - multiset{x}, wire := s.wire + [Message(x, [])])
    case Drop(x) => s.(owed := s.owed - multiset{x}, lost := s.lost + multiset{x})
    case Deliver =>
      var m := s.wire[0];
      s.(req := OnStatus(s.req, m.peer, m.subs), wire := s.wire[1..], heard := true,
         arrived := if s.heard then s.arrived + multiset{m.peer} else s.arrived)
    case DataBegins => s.(req := BeginData(s.req))
    case DataEnds => s.(req := EndData(s.req))
  }

  // ---------- whom a mask waits for

  function Waiting(pending: nat, ids: seq<Id>, i: nat): multiset<Id>
    decreases |ids| - i
  {
    if i >= |ids| then multiset{}
    else if Bit(pending, i) then multiset{ids[i]} + Waiting(pending, ids, i + 1)
    else Waiting(pending, ids, i + 1)
  }

  /** The subscribers that there is room for */
  function Take(subs: seq<Id>, n: nat): (r: seq<Id>)
    ensures r <= subs && |r| == if |subs| < n then |subs| else n
  {
    if |subs| < n then subs else subs[..n]
  }

  lemma {:induction false} WaitingSame(p: nat, ids: seq<Id>, p': nat, ids': seq<Id>, i: nat)
    requires |ids| == |ids'| && forall k :: i <= k < |ids| ==> (Bit(p, k) <==> Bit(p', k)) && ids[k] == ids'[k]
    ensures Waiting(p, ids, i) == Waiting(p', ids', i)
    decreases |ids| - i
  {
    hide Bit;
    if i < |ids| { WaitingSame(p, ids, p', ids', i + 1); }
  }

  lemma {:induction false} WaitingNone(p: nat, ids: seq<Id>, i: nat)
    ensures Waiting(p, ids, i) == multiset{} ==> forall k :: i <= k < |ids| ==> !Bit(p, k)
    ensures (forall k :: i <= k < |ids| ==> !Bit(p, k)) ==> Waiting(p, ids, i) == multiset{}
    decreases |ids| - i
  {
    hide Bit;
    if i < |ids| {
      WaitingNone(p, ids, i + 1);
      if Bit(p, i) { assert ids[i] in Waiting(p, ids, i); }
    }
  }

  /** An answer that somebody is waited for takes exactly one of them off. */
  lemma {:induction false} WaitingLess(p: nat, ids: seq<Id>, x: Id, i: nat)
    ensures var k := FindId(p, ids, x, i);
      if k == -1 then x !in Waiting(p, ids, i)
      else x in Waiting(p, ids, i) && Waiting(ClearBit(p, k), ids, i) == Waiting(p, ids, i) - multiset{x}
    decreases |ids| - i
  {
    hide Bit, ClearBit;
    var k := FindId(p, ids, x, i);
    if k != -1 {
      forall j: nat ensures Bit(ClearBit(p, k), j) <==> j != k && Bit(p, j) { BitClear(p, k, j); }
    }
    if i < |ids| && k == i {
      WaitingSame(p, ids, ClearBit(p, k), ids, i + 1);
      assert Waiting(p, ids, i + 1) == Waiting(p, ids, i) - multiset{x};
    } else if i < |ids| {
      WaitingLess(p, ids, x, i + 1);
      if k != -1 && Bit(p, i) { TakenFrom(ids[i], Waiting(p, ids, i + 1), x); }
    }
  }

  lemma TakenFrom(y: Id, m: multiset<Id>, x: Id)
    requires x in m
    ensures multiset{y} + (m - multiset{x}) == multiset{y} + m - multiset{x}
  {
  }

  /** As many bits are set as fit, and what is in front of them stays. */
  lemma {:induction false} EnlistBits(p: nat, ids: seq<Id>, subs: seq<Id>, idx: nat, k: nat)
    requires idx <= |ids| && k < |ids|
    ensures var r := Enlist(p, ids, subs, idx);
      && (Bit(r.0, k) <==> Bit(p, k) || idx <= k < idx + |subs|)
      && (k < idx ==> r.1[k] == ids[k]) && (idx <= k < idx + |subs| ==> r.1[k] == subs[k - idx])
    decreases |subs|
  {
    hide Bit, SetBit;
    if subs != [] && idx < |ids| {
      BitSet(p, idx, k);
      EnlistBits(SetBit(p, idx), ids[idx := subs[0]], subs[1..], idx + 1, k);
    }
  }

  /** They wait for the subscribers that are listed first. */
  lemma {:induction false} EnlistWaits(p: nat, ids: seq<Id>, subs: seq<Id>, idx: nat)
    requires idx <= |ids| && forall k: nat :: idx <= k < |ids| ==> !Bit(p, k)
    ensures var r := Enlist(p, ids, subs, idx); Waiting(r.0, r.1, idx) == multiset(Take(subs, |ids| - idx))
    decreases |subs|
  {
    hide Bit, SetBit, Take;
    var r := Enlist(p, ids, subs, idx);
    if subs == [] || idx == |ids| {
      WaitingNone(p, ids, idx);
    } else {
      var p', ids' := SetBit(p, idx), ids[idx := subs[0]];
      forall k: nat | idx + 1 <= k < |ids| ensures !Bit(p', k) { BitSet(p, idx, k); }
      EnlistWaits(p', ids', subs[1..], idx + 1);
      EnlistBits(p, ids, subs, idx, idx);
      TakeStep(subs, |ids| - idx);
    }
  }

  lemma TakeStep(subs: seq<Id>, n: nat)
    requires subs != [] && n > 0
    ensures multiset(Take(subs, n)) == multiset{subs[0]} + multiset(Take(subs[1..], n - 1))
  {
    assert Take(subs, n) == [subs[0]] + Take(subs[1..], n - 1);
  }

  // ---------- what every step keeps

  /** The answers on the way */
  function Answers(wire: seq<Message>): multiset<Id> {
    if wire == [] then multiset{} else multiset{wire[0].peer} + Answers(wire[1..])
  }

  lemma {:induction false} AnswersAdd(wire: seq<Message>, m: Message)
    ensures Answers(wire + [m]) == Answers(wire) + multiset{m.peer}
  {
    if wire == [] {
      assert wire + [m] == [m];
    } else {
      AnswersAdd(wire[1..], m);
      assert (wire + [m])[1..] == wire[1..] + [m];
    }
  }

  /** The wire behind the status of the broker */
  function Behind(s: State): seq<Message> {
    if s.heard || s.wire == [] then s.wire else s.wire[1..]
  }

  ghost predicate WireOk(s: State) {
    && s.obj !in s.subs
    && (forall m :: m in Behind(s) ==> m.peer in s.subs && m.subs == [])
    && (if !s.told then s.wire == [] && s.subs == [] && !s.heard
        else s.heard || (s.wire != [] && s.wire[0] == Message(s.obj, s.subs)))
    && s.arrived + Answers(Behind(s)) + s.owed + s.lost == multiset(s.subs)
    && (!s.heard ==> s.arrived == multiset{})
  }

  ghost predicate CallbackOk(r: Request) {
    && r.runs == (if r.callback then 0 else 1)
    && r.listed == !r.done
    && (r.callback <==> !r.done || r.blocked)
  }

  ghost predicate WaitingOk(s: State) {
    var r := s.req;
    && Fits(r.pending, r.ids) && r.ids[0] == s.obj && (r.done <==> r.pending == 0)
    && (forall i: nat :: !s.heard ==> (Bit(r.pending, i) <==> i == 0))
    && (s.heard ==> !Bit(r.pending, 0) && Waiting(r.pending, r.ids, 1) == multiset(Take(s.subs, MAX_PEERS)) - s.arrived)
  }

  ghost predicate Inv(s: State) {
    WireOk(s) && CallbackOk(s.req) && WaitingOk(s)
  }

  lemma BeginOk(obj: Id)
    ensures Inv(Begin(obj))
  {
    FreshFits();
  }

  lemma WireKeeps(s: State, a: Action)
    requires WireOk(s) && Enabled(s, a)
    ensures WireOk(Apply(s, a))
  {
    match a
    case Notify(subs) => assert Behind(Apply(s, a)) == [];
    case Answer(x) => AnswerKeeps(s, x);
    case Drop(x) =>
      assert multiset(s.subs) == s.arrived + Answers(Behind(s)) + (s.owed - multiset{x}) + (s.lost + multiset{x});
    case Deliver => ArrivalKeeps(s);
    case _ =>
  }

  lemma AnswerKeeps(s: State, x: Id)
    requires WireOk(s) && x in s.owed
    ensures WireOk(Apply(s, Answer(x)))
  {
    hide Answers, OnStatus, EndData;
    var s', m := Apply(s, Answer(x)), Message(x, []);
    AnswersAdd(Behind(s), m);
    assert Behind(s') == Behind(s) + [m];
    Handed(s.arrived, Answers(Behind(s)), s.owed, s.lost, x);
    assert x in s.subs;
  }

  lemma Handed(a: multiset<Id>, b: multiset<Id>, c: multiset<Id>, d: multiset<Id>, x: Id)
    requires x in c
    ensures a + (b + multiset{x}) + (c - multiset{x}) + d == a + b + c + d && x in a + b + c + d
  {
  }

  lemma ArrivalKeeps(s: State)
    requires WireOk(s) && Enabled(s, Deliver)
    ensures WireOk(Apply(s, Deliver))
  {
    var s' := Apply(s, Deliver);
    assert Behind(s') == s.wire[1..];
    if s.heard {
      assert Answers(s.wire) == multiset{s.wire[0].peer} + Answers(s.wire[1..]);
      assert multiset(s.subs) == (s.arrived + multiset{s.wire[0].peer}) + Answers(s.wire[1..]) + s.owed + s.lost;
    }
  }

  lemma NoneWaits(p: nat, ids: seq<Id>)
    requires Fits(p, ids) && !Bit(p, 0)
    ensures p == 0 <==> Waiting(p, ids, 1) == multiset{}
  {
    NoBit(p);
    WaitingNone(p, ids, 1);
  }

  /** The first message is the status of the broker, and its list is taken down. */
  lemma ListTaken(s: State)
    requires WireOk(s) && WaitingOk(s) && CallbackOk(s.req) && s.wire != [] && !s.heard
    ensures var r := Counted(s.req, 0, s.subs);
      && FindId(s.req.pending, s.req.ids, s.wire[0].peer, 0) == 0 && s.wire[0].subs == s.subs && s.req.listed
      && s.req.pending != 0 && Fits(r.pending, r.ids) && r.ids[0] == s.obj && !Bit(r.pending, 0)
      && Waiting(r.pending, r.ids, 1) == multiset(Take(s.subs, MAX_PEERS))
  {
    hide Bit, ClearBit, Waiting, Take, Enlist;
    assert Bit(s.req.pending, 0);
    forall k: nat ensures !Bit(ClearBit(s.req.pending, 0), k) { BitClear(s.req.pending, 0, k); }
    EnlistFits(ClearBit(s.req.pending, 0), s.req.ids, s.subs, 1);
    EnlistWaits(ClearBit(s.req.pending, 0), s.req.ids, s.subs, 1);
    EnlistBits(ClearBit(s.req.pending, 0), s.req.ids, s.subs, 1, 0);
    NoBit(s.req.pending);
  }

  lemma FindFrom(p: nat, ids: seq<Id>, x: Id)
    requires ids != [] && !(Bit(p, 0) && ids[0] == x)
    ensures FindId(p, ids, x, 0) == FindId(p, ids, x, 1)
  {
  }

  lemma AnswerCounted(s: State)
    requires WireOk(s) && WaitingOk(s) && s.wire != [] && s.heard
    ensures var m := s.wire[0];
      var i := FindId(s.req.pending, s.req.ids, m.peer, 0);
      var r := if i == -1 then s.req else Counted(s.req, i, m.subs);
      && i != 0 && Fits(r.pending, r.ids) && r.ids == s.req.ids && !Bit(r.pending, 0)
      && Waiting(r.pending, r.ids, 1) == multiset(Take(s.subs, MAX_PEERS)) - (s.arrived + multiset{m.peer})
  {
    hide Bit, ClearBit, Waiting, Take;
    var m := s.wire[0];
    FindFrom(s.req.pending, s.req.ids, m.peer);
    var i := FindId(s.req.pending, s.req.ids, m.peer, 1);
    WaitingLess(s.req.pending, s.req.ids, m.peer, 1);
    if i != -1 {
      forall k: nat ensures Bit(ClearBit(s.req.pending, i), k) <==>
        k != i && Bit(s.req.pending, k) { BitClear(s.req.pending, i, k); }
    }
    OneMore(multiset(Take(s.subs, MAX_PEERS)), s.arrived, m.peer);
  }

  lemma OneMore(l: multiset<Id>, arrived: multiset<Id>, x: Id)
    ensures (l - arrived) - multiset{x} == l - (arrived + multiset{x})
    ensures x !in l - arrived ==> l - arrived == l - (arrived + multiset{x})
  {
  }

  lemma FirstKeeps(s: State)
    requires Inv(s) && Enabled(s, Deliver) && !s.heard
    ensures WaitingOk(Apply(s, Deliver)) && CallbackOk(Apply(s, Deliver).req)
  {
    hide Fits, Bit, ClearBit, Waiting, FindId, Counted, Take, Enlist;
    ListTaken(s);
    var r := Counted(s.req, 0, s.subs);
    assert r.(pending := 0, ids := []) == s.req.(pending := 0, ids := []) by { CountedOnly(s.req, 0, s.subs); }
    assert Apply(s, Deliver).req == if r.pending == 0 then SetStatus(r) else r;
    var l := multiset(Take(s.subs, MAX_PEERS));
    assert l - multiset{} == l;
  }

  lemma CountedOnly(r: Request, i: nat, subs: seq<Id>)
    requires |r.ids| == MAX_PEERS + 1
    ensures Counted(r, i, subs).(pending := 0, ids := []) == r.(pending := 0, ids := [])
  {
  }

  lemma NextKeeps(s: State)
    requires Inv(s) && Enabled(s, Deliver) && s.heard
    ensures WaitingOk(Apply(s, Deliver)) && CallbackOk(Apply(s, Deliver).req)
  {
    hide Fits, Bit, ClearBit, Waiting, FindId, Counted, Take, Enlist, WireOk;
    var m := s.wire[0];
    AnswerCounted(s);
    NoBit(s.req.pending);
    var i := FindId(s.req.pending, s.req.ids, m.peer, 0);
    if i != -1 {
      var r := Counted(s.req, i, m.subs);
      assert r.(pending := 0, ids := []) == s.req.(pending := 0, ids := []) by { CountedOnly(s.req, i, m.subs); }
      assert Apply(s, Deliver).req == if r.pending == 0 then SetStatus(r) else r;
    } else {
      assert Apply(s, Deliver).req == s.req;
    }
  }

  lemma StepKeeps(s: State, a: Action)
    requires Inv(s) && Enabled(s, a)
    ensures Inv(Apply(s, a))
  {
    WireKeeps(s, a);
    if a == Deliver {
      if s.heard { NextKeeps(s); } else { FirstKeeps(s); }
    }
  }

  // ---------- what holds in every run

  predicate Leads(s: State, a: Action, s': State) {
    Enabled(s, a) && s' == Apply(s, a)
  }

  ghost predicate Step(s: State, s': State) {
    exists a :: Leads(s, a, s')
  }

  ghost predicate IsRun(obj: Id, run: seq<State>) {
    run != [] && run[0] == Begin(obj) && forall i :: 0 < i < |run| ==> Step(run[i-1], run[i])
  }

  lemma {:induction false} RunsKeep(obj: Id, run: seq<State>, i: nat)
    requires IsRun(obj, run) && i < |run|
    ensures Inv(run[i])
  {
    hide Inv, Enabled, Apply, Begin;
    BeginOk(obj);
    if i > 0 {
      RunsKeep(obj, run, i - 1);
      assert Step(run[i-1], run[i]);
      var a :| Leads(run[i-1], a, run[i]);
      StepKeeps(run[i-1], a);
    }
  }

  /** A notification is done exactly when the broker's status and one status for each subscriber listed in it, up to
      the sixteenth, have arrived; an object that subscribed twice answers twice. */
  lemma DoneWhenAllAnswered(obj: Id, run: seq<State>)
    requires IsRun(obj, run)
    ensures var s := run[|run|-1];
      s.req.done <==> s.heard && multiset(Take(s.subs, MAX_PEERS)) <= s.arrived
  {
    RunsKeep(obj, run, |run| - 1);
    var s := run[|run|-1];
    NoBit(s.req.pending);
    if s.heard {
      NoneWaits(s.req.pending, s.req.ids);
      AllCame(multiset(Take(s.subs, MAX_PEERS)), s.arrived);
    } else {
      var first: nat := 0;
      assert Bit(s.req.pending, first);
    }
  }

  lemma AllCame(l: multiset<Id>, arrived: multiset<Id>)
    ensures l - arrived == multiset{} <==> l <= arrived
  {
    if l - arrived == multiset{} {
      forall x ensures l[x] <= arrived[x] { assert (l - arrived)[x] == 0; }
    }
  }

  /** If no answer is lost, the notification is done once nobody owes one and none is on the way. */
  lemma DoneInTheEnd(obj: Id, run: seq<State>)
    requires IsRun(obj, run)
    ensures var s := run[|run|-1];
      s.told && s.wire == [] && s.owed == multiset{} && s.lost == multiset{} ==> s.req.done
  {
    RunsKeep(obj, run, |run| - 1);
    DoneWhenAllAnswered(obj, run);
    var s := run[|run|-1];
    if s.told && s.wire == [] && s.owed == multiset{} && s.lost == multiset{} {
      assert s.arrived == multiset(s.subs);
      TakeSome(s.subs, MAX_PEERS);
    }
  }

  lemma TakeSome(subs: seq<Id>, n: nat)
    ensures multiset(Take(subs, n)) <= multiset(subs)
  {
    assert subs == Take(subs, n) + subs[|Take(subs, n)|..];
  }

  /** The callback runs once: when the notification is done, and no data callback is at work. */
  lemma CallbackRunsOnce(obj: Id, run: seq<State>)
    requires IsRun(obj, run)
    ensures var r := run[|run|-1].req;
      r.runs <= 1 && (r.runs == 1 <==> r.done && !r.blocked)
  {
    RunsKeep(obj, run, |run| - 1);
  }

  /** After the status of the broker, a bit that was cleared stays clear, and each answer clears at most one. */
  lemma {:induction false} BitsOnlyFall(obj: Id, run: seq<State>, i: nat, j: nat, k: nat)
    requires IsRun(obj, run) && i <= j < |run| && run[i].heard
    ensures run[j].heard && (Bit(run[j].req.pending, k) ==> Bit(run[i].req.pending, k))
    decreases j
  {
    hide Inv, Enabled, Apply, Bit, Begin;
    if i < j {
      BitsOnlyFall(obj, run, i, j - 1, k);
      RunsKeep(obj, run, j - 1);
      assert Step(run[j-1], run[j]);
      var a :| Leads(run[j-1], a, run[j]);
      StepLess(run[j-1], a, k);
    }
  }

  lemma StepLess(s: State, a: Action, k: nat)
    requires Inv(s) && Enabled(s, a) && s.heard
    ensures var s' := Apply(s, a);
      && s'.heard
      && (Bit(s'.req.pending, k) ==> Bit(s.req.pending, k))
      && (s'.req.pending == s.req.pending
          || (a.Deliver? && exists i :: 0 < i <= MAX_PEERS && s'.req.pending == ClearBit(s.req.pending, i)))
  {
    hide Fits, Bit, ClearBit, Waiting, Take, Enlist, WireOk, CallbackOk;
    if a.Deliver? {
      AnswerCounted(s);
      var i := FindId(s.req.pending, s.req.ids, s.wire[0].peer, 0);
      if i != -1 { BitClear(s.req.pending, i, k); }
    }
  }
}
