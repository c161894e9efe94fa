/** ubus/libubus-req.c: a notification waits for the status of the broker, which lists the subscribers, and then for
    one status of each of them. */
module NotifyRequest {
  /** The identifier of an object */
  type Id = nat

  const MAX_PEERS := 16

  // ---------- the bits of a mask

  predicate Bit(mask: nat, i: nat) {
    if i == 0 then mask % 2 == 1 else Bit(mask / 2, i - 1)
  }

  /** mask | (1 << i) */
  function SetBit(mask: nat, i: nat): nat {
    if i == 0 then mask / 2 * 2 + 1 else SetBit(mask / 2, i - 1) * 2 + mask % 2
  }

  /** mask & ~(1 << i) */
  function ClearBit(mask: nat, i: nat): nat {
    if i == 0 then mask / 2 * 2 else ClearBit(mask / 2, i - 1) * 2 + mask % 2
  }

  lemma {:induction false} BitSet(mask: nat, i: nat, j: nat)
    ensures Bit(SetBit(mask, i), j) <==> j == i || Bit(mask, j)
  {
    if i > 0 && j > 0 {
      BitSet(mask / 2, i - 1, j - 1);
      assert SetBit(mask, i) / 2 == SetBit(mask / 2, i - 1);
    }
  }

  lemma {:induction false} BitClear(mask: nat, i: nat, j: nat)
    ensures Bit(ClearBit(mask, i), j) <==> j != i && Bit(mask, j)
  {
    if i > 0 && j > 0 {
      BitClear(mask / 2, i - 1, j - 1);
      assert ClearBit(mask, i) / 2 == ClearBit(mask / 2, i - 1);
    }
  }

  lemma {:induction false} NoBit(mask: nat)
    ensures mask == 0 ==> forall i: nat :: !Bit(mask, i)
    ensures mask != 0 ==> exists i: nat :: Bit(mask, i)
  {
    if mask == 0 {
      forall i: nat ensures !Bit(0, i) { ZeroBit(i); }
    } else if mask % 2 == 0 {
      NoBit(mask / 2);
      var i: nat :| Bit(mask / 2, i);
      assert Bit(mask, i + 1) == Bit(mask / 2, i + 1 - 1);
    } else {
      var zero: nat := 0;
      assert Bit(mask, zero);
    }
  }

  lemma {:induction false} ZeroBit(i: nat)
    ensures !Bit(0, i)
  {
    if i > 0 { ZeroBit(i - 1); }
  }

  /** mask >> i */
  function Shift(mask: nat, i: nat): nat {
    if i == 0 then mask else Shift(mask / 2, i - 1)
  }

  lemma {:induction false} ShiftBit(mask: nat, i: nat, k: nat)
    ensures Bit(Shift(mask, i), k) <==> Bit(mask, i + k)
  {
    if i > 0 { ShiftBit(mask / 2, i - 1, k); }
  }

  lemma {:induction false} ShiftOnce(mask: nat, i: nat)
    ensures Shift(mask, i) / 2 == Shift(mask, i + 1)
  {
    if i > 0 { ShiftOnce(mask / 2, i - 1); }
  }

  // ---------- the request

  /** ubus_notify_request: its mask and identifiers, whether it is in the list of requests, and the status_msg, blocked
      and complete_cb of its ubus_request; runs counts how often the callback ran. */
  datatype Request = Request(pending: nat, ids: seq<Id>, listed: bool, done: bool, blocked: bool, callback: bool,
                             runs: nat)

  /** Only the bits of the 17 identifiers are ever set. */
  ghost predicate Fits(pending: nat, ids: seq<Id>) {
    |ids| == MAX_PEERS + 1 && forall i: nat :: Bit(pending, i) ==> i <= MAX_PEERS
  }

  /** __ubus_notify_async, and the request goes into the list. */
  function Fresh(obj: Id): (r: Request)
    ensures Fits(r.pending, r.ids)
  {
    FreshFits();
    Request(1, [obj] + seq(MAX_PEERS, _ => 0), true, false, false, true, 0)
  }

  lemma FreshFits()
    ensures forall i: nat :: Bit(1, i) <==> i == 0
  {
    forall i: nat ensures Bit(1, i) <==> i == 0 {
      if i > 0 { ZeroBit(i - 1); }
    }
  }

  /** The first identifier from i on that is pending and is the one of the peer */
  function FindId(pending: nat, ids: seq<Id>, peer: Id, i: nat): (r: int)
    ensures r == -1 || i <= r < |ids|
    ensures r != -1 ==> ids[r] == peer && Bit(pending, r) && forall k :: i <= k < r ==>
      !(Bit(pending, k) && ids[k] == peer)
    ensures r == -1 ==> forall k :: i <= k < |ids| ==> !(Bit(pending, k) && ids[k] == peer)
    decreases |ids| - i
  {
    if i >= |ids| then -1 else if Bit(pending, i) && ids[i] == peer then i else FindId(pending, ids, peer, i + 1)
  }

  /** The subscribers take the identifiers from idx on, as far as there is room. */
  function Enlist(pending: nat, ids: seq<Id>, subs: seq<Id>, idx: nat): (r: (nat, seq<Id>))
    requires idx <= |ids|
    ensures |r.1| == |ids|
    decreases |subs|
  {
    if subs == [] || idx == |ids| then (pending, ids)
    else Enlist(SetBit(pending, idx), ids[idx := subs[0]], subs[1..], idx + 1)
  }

  /** ubus_req_complete_cb */
  function RunCallback(r: Request): Request {
    if r.callback then r.(callback := false, runs := r.runs + 1) else r
  }

  /** ubus_set_req_status */
  function SetStatus(r: Request): Request {
    var r := r.(listed := false, done := true);
    if r.blocked then r else RunCallback(r)
  }

  /** The mask and identifiers after ubus_process_notify_status */
  function Counted(r: Request, i: nat, subs: seq<Id>): (r': Request)
    requires |r.ids| == MAX_PEERS + 1
    ensures |r'.ids| == |r.ids|
  {
    var pending := ClearBit(r.pending, i);
    if i == 0 then
      var (pending, ids) := Enlist(pending, r.ids, subs, 1);
      r.(pending := pending, ids := ids)
    else r.(pending := pending)
  }

  /** ubus_process_req_msg for a status message; one without a list of subscribers counts as one with an empty list. */
  function OnStatus(r: Request, peer: Id, subs: seq<Id>): (r': Request)
    requires |r.ids| == MAX_PEERS + 1
    ensures |r'.ids| == |r.ids|
  {
    var i := if r.listed && r.pending != 0 then FindId(r.pending, r.ids, peer, 0) else -1;
    if i == -1 then r
    else
      var r := Counted(r, i, subs);
      if r.pending == 0 then SetStatus(r) else r
  }

  /** ubus_process_req_data, up to the callback; data for a blocked request just waits. */
  function BeginData(r: Request): Request {
    r.(blocked := true)
  }

  /** ubus_process_req_data, behind the callback */
  function EndData(r: Request): Request {
    var r := r.(blocked := false);
    if r.done then RunCallback(r) else r
  }

  // ---------- the code

  class NotifyReq {
    var pending: nat
    const id: array<Id>
    var listed: bool
    var statusMsg: bool
    var blocked: bool
    var completeCb: bool
    ghost var runs: nat

    ghost function View(): Request
      reads this, id
    {
      Request(pending, id[..], listed, statusMsg, blocked, completeCb, runs)
    }

    ghost predicate Ok()
      reads this, id
    {
      id.Length == MAX_PEERS + 1 && Fits(pending, id[..])
    }

    constructor (obj: Id)
      ensures Ok() && View() == Fresh(obj) && fresh(id)
    {
      pending := 1;
      id := new Id[MAX_PEERS + 1](i => if i == 0 then obj else 0);
      listed, statusMsg, blocked, completeCb, runs := true, false, false, true, 0;
      new;
      FreshFits();
      assert id[..] == Fresh(obj).ids;
    }

    /** ubus_find_notify_id never looks behind the identifiers. */
    method FindNotifyId(objid: Id) returns (result: int)
      requires Ok()
      ensures result == FindId(pending, id[..], objid, 0)
    {
      var mask := pending;
      var i := 0;
      while mask != 0
        invariant i <= MAX_PEERS + 1 && FindId(pending, id[..], objid, 0) == FindId(pending, id[..], objid, i)
        invariant mask == Shift(pending, i)
        decreases mask
      {
        InRange(i);
        ShiftBit(pending, i, 0);
        if mask % 2 == 1 {
          if id[i] == objid {
            return i;
          }
        }
        ShiftOnce(pending, i);
        i := i + 1;
        mask := mask / 2;
      }
      NoneLeft(i, objid);
      return -1;
    }

    lemma InRange(i: nat)
      requires Ok() && Shift(pending, i) != 0
      ensures i <= MAX_PEERS
    {
      NoBit(Shift(pending, i));
      var k: nat :| Bit(Shift(pending, i), k);
      ShiftBit(pending, i, k);
    }

    lemma {:induction false} NoneLeft(i: nat, objid: Id)
      requires Ok() && i <= MAX_PEERS + 1 && Shift(pending, i) == 0
      ensures FindId(pending, id[..], objid, i) == -1
      decreases MAX_PEERS + 1 - i
    {
      if i <= MAX_PEERS {
        ShiftBit(pending, i, 0);
        ShiftOnce(pending, i);
        NoneLeft(i + 1, objid);
      }
    }

    method ReqCompleteCb()
      modifies this`completeCb, this`runs
      ensures View() == RunCallback(old(View()))
    {
      if !completeCb {
        return;
      }
      completeCb := false;
      runs := runs + 1;
    }

    method SetReqStatus()
      modifies this`listed, this`statusMsg, this`completeCb, this`runs
      ensures View() == SetStatus(old(View()))
    {
      listed := false;
      statusMsg := true;
      if !blocked {
        ReqCompleteCb();
      }
    }

    method ProcessNotifyStatus(i: nat, subs: seq<Id>)
      requires Ok() && i <= MAX_PEERS
      modifies this`listed, this`statusMsg, this`completeCb, this`runs, this`pending, id
      ensures var r := Counted(old(View()), i, subs); View() == if r.pending == 0 then SetStatus(r) else r
    {
      pending := ClearBit(pending, i);
      if i == 0 {
        var idx := 1;
        var k := 0;
        while k < |subs|
          invariant k <= |subs| && idx == k + 1 <= MAX_PEERS
          invariant Enlist(pending, id[..], subs[k..], idx) == Enlist(old(ClearBit(pending, i)), old(id[..]), subs, 1)
          invariant listed == old(listed) && statusMsg == old(statusMsg) && completeCb == old(completeCb)
            && runs == old(runs)
        {
          assert subs[k..][1..] == subs[k+1..];
          ghost var ids := id[..];
          pending := SetBit(pending, idx);
          id[idx] := subs[k];
          assert id[..] == ids[idx := subs[k]];
          idx := idx + 1;
          k := k + 1;
          if idx == MAX_PEERS + 1 {
            break;
          }
        }
      }
      if pending == 0 {
        SetReqStatus();
      }
    }

    /** ubus_process_req_msg, with ubus_find_request, for a status message with the number of the request */
    method ProcessStatus(peer: Id, subs: seq<Id>)
      requires Ok()
      modifies this`listed, this`statusMsg, this`completeCb, this`runs, this`pending, id
      ensures Ok() && View() == OnStatus(old(View()), peer, subs)
    {
      hide Fits;
      StatusFits(View(), peer, subs);
      if !listed || pending == 0 {
        return;
      }
      var i := FindNotifyId(peer);
      if i < 0 {
        return;
      }
      ProcessNotifyStatus(i, subs);
    }

    /** The part of ubus_process_req_data in front of the callback; queued says that the data has to wait. */
    method DataBegins() returns (queued: bool)
      modifies this`blocked
      ensures queued == old(blocked) && View() == BeginData(old(View()))
    {
      queued := blocked;
      if !blocked {
        blocked := true;
      }
    }

    method DataEnds()
      modifies this`blocked, this`completeCb, this`runs
      ensures View() == EndData(old(View()))
    {
      blocked := false;
      if statusMsg {
        ReqCompleteCb();
      }
    }
  }

  lemma {:induction false} EnlistFits(pending: nat, ids: seq<Id>, subs: seq<Id>, idx: nat)
    requires Fits(pending, ids) && idx <= |ids|
    ensures var r := Enlist(pending, ids, subs, idx); Fits(r.0, r.1)
    decreases |subs|
  {
    if subs != [] && idx < |ids| {
      forall i: nat | Bit(SetBit(pending, idx), i) ensures i <= MAX_PEERS { BitSet(pending, idx, i); }
      EnlistFits(SetBit(pending, idx), ids[idx := subs[0]], subs[1..], idx + 1);
    }
  }

  lemma StatusFits(r: Request, peer: Id, subs: seq<Id>)
    requires Fits(r.pending, r.ids)
    ensures var r' := OnStatus(r, peer, subs); Fits(r'.pending, r'.ids)
  {
    var i := FindId(r.pending, r.ids, peer, 0);
    if i != -1 {
      var pending := ClearBit(r.pending, i);
      forall k: nat | Bit(pending, k) ensures k <= MAX_PEERS { BitClear(r.pending, i, k); }
      EnlistFits(pending, r.ids, subs, 1);
    }
  }
}
