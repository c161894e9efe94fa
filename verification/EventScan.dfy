/** ubus/ubusd_event.c: which objects get an event. The scan walks through a sorted tree and stops early. */
module EventScan {
  import opened JsonValue
  import opened Strings

  /** The identifiers of objects and clients */
  type Id = nat
  type Client = nat

  /** event_source: a pattern registered for an object */
  datatype Source = Source(key: string, partial: bool, obj: Id)

  /** What the documentation of the bus promises: the event is the pattern or, for a pattern that ended in a star,
      starts with it. */
  predicate Concerns(id: string, e: Source) {
    id == e.key || (e.partial && e.key <= id)
  }

  ghost predicate Sorted(es: seq<Source>) {
    forall i, j :: 0 <= i <= j < |es| ==> Leq(es[i].key, es[j].key)
  }

  /** Those who are to get the event, each once: without a scan that stops early */
  function Receivers(es: seq<Source>, id: string, clients: map<Id, Option<Client>>, sender: Option<Client>,
      done: set<Id>): (r: seq<Id>)
    requires forall e :: e in es ==> e.obj in clients
  {
    if es == [] then []
    else
      var o := es[0].obj;
      if Concerns(id, es[0]) && clients[o] != sender && o !in done then
        [o] + Receivers(es[1..], id, clients, sender, done + {o})
      else Receivers(es[1..], id, clients, sender, done)
  }

  /** Each object with a matching pattern gets the event once, unless it belongs to the sender. */
  lemma {:induction false} ReceiversAreRight(es: seq<Source>, id: string, clients: map<Id, Option<Client>>,
      sender: Option<Client>, done: set<Id>)
    requires forall e :: e in es ==> e.obj in clients
    ensures var r := Receivers(es, id, clients, sender, done);
      && (forall i, j :: 0 <= i < j < |r| ==> r[i] != r[j])
      && (forall o ::
            o in r <==> o !in done && exists e :: e in es && Concerns(id, e) && e.obj == o && clients[o] != sender)
  {
    if es != [] {
      var o := es[0].obj;
      var takes := Concerns(id, es[0]) && clients[o] != sender && o !in done;
      ReceiversAreRight(es[1..], id, clients, sender, if takes then done + {o} else done);
      assert es == [es[0]] + es[1..];
    }
  }

  lemma {:induction false} NobodyReceives(es: seq<Source>, id: string, clients: map<Id, Option<Client>>,
      sender: Option<Client>, done: set<Id>)
    requires forall e :: e in es ==> e.obj in clients && !Concerns(id, e)
    ensures Receivers(es, id, clients, sender, done) == []
  {
    if es != [] { NobodyReceives(es[1..], id, clients, sender, done); }
  }

  /** A pattern that has less in common with the event than the one before is behind all that match. */
  lemma NoneBehind(es: seq<Source>, id: string, i: nat, j: nat)
    requires Sorted(es) && 0 < i <= j < |es| && Common(id, es[i].key) < Common(id, es[i-1].key)
    ensures !Concerns(id, es[j])
  {
    if Concerns(id, es[j]) {
      CommonPrefix(id, es[j].key);
      LeqReflexive(id);
      PrefixLeq(es[j].key, id);
      LeqTransitive(es[i].key, es[j].key, id);
      CommonGrows(id, es[i-1].key, es[i].key);
    }
  }

  lemma NobodyBehind(es: seq<Source>, id: string, i: nat, clients: map<Id, Option<Client>>, sender: Option<Client>,
      done: set<Id>)
    requires Sorted(es) && 0 < i < |es| && Common(id, es[i].key) < Common(id, es[i-1].key) && forall e :: e in es ==>
      e.obj in clients
    ensures Receivers(es[i..], id, clients, sender, done) == []
  {
    hide Sorted, Common, Concerns;
    forall e | e in es[i..] ensures !Concerns(id, e) {
      var j :| i <= j < |es| && es[j] == e;
      NoneBehind(es, id, i, j);
    }
    NobodyReceives(es[i..], id, clients, sender, done);
  }

  lemma ReceiversStep(es: seq<Source>, i: nat, id: string, clients: map<Id, Option<Client>>, sender: Option<Client>,
      done: set<Id>)
    requires i < |es| && forall e :: e in es ==> e.obj in clients
    ensures var o := es[i].obj;
      Receivers(es[i..], id, clients, sender, done) ==
        if Concerns(id, es[i]) && clients[o] != sender && o !in done then
          [o] + Receivers(es[i+1..], id, clients, sender, done + {o})
        else Receivers(es[i+1..], id, clients, sender, done)
  {
    assert es[i..][1..] == es[i+1..];
  }

  lemma Concerned(id: string, e: Source)
    ensures Concerns(id, e) <==> id == e.key || (e.partial && Common(id, e.key) == |e.key|)
  {
    CommonPrefix(id, e.key);
  }

  /** A message to the owner of an object */
  datatype Sent = Sent(obj: Id, seqno: nat)

  class Events {
    var patterns: seq<Source>
    var clients: map<Id, Option<Client>>
    /** event_seen of each object */
    var seen: map<Id, nat>
    var eventSeq: nat
    var objEventSeq: nat
    var out: seq<Sent>

    ghost predicate Valid()
      reads this
    {
      && Sorted(patterns) && (forall e :: e in patterns ==> e.obj in clients && IsCString(e.key))
      && seen.Keys == clients.Keys && forall o :: o in seen ==> seen[o] <= objEventSeq
    }

    ghost function Done(): set<Id>
      reads this
    {
      set o | o in seen && seen[o] == objEventSeq
    }

    method StrMatchLen(s1: string, s2: string) returns (full: bool, len: nat)
      requires IsCString(s1) && IsCString(s2)
      ensures len == Common(s1, s2) && (full <==> s1 == s2)
    {
      len := 0;
      while At(s1, len) == At(s2, len)
        invariant len <= |s1| && len <= |s2| && Common(s1, s2) == len + Common(s1[len..], s2[len..])
        invariant s1[..len] == s2[..len]
        decreases |s1| - len
      {
        if At(s1, len) == NUL {
          assert s1[..len] == s1 && s2[..len] == s2;
          return true, len;
        }
        assert s1[len..][1..] == s1[len+1..] && s2[len..][1..] == s2[len+1..];
        len := len + 1;
      }
      return false, len;
    }

    /** ubusd_send_event_msg */
    method SendEventMsg(sender: Option<Client>, obj: Id)
      requires Valid() && obj in clients
      modifies this`seen, this`eventSeq, this`out
      ensures Valid()
      ensures if clients[obj] == sender || obj in old(Done()) then out == old(out) && Done() == old(Done())
              else Done() == old(Done()) + {obj} && exists n :: out == old(out) + [Sent(obj, n)]
    {
      if clients[obj] == sender {
        return;
      }
      if seen[obj] == objEventSeq {
        return;
      }
      seen := seen[obj := objEventSeq];
      eventSeq := eventSeq + 1;
      out := out + [Sent(obj, eventSeq % 0x10000)];
    }

    /** ubusd_send_event */
    method SendEvent(sender: Option<Client>, id: string)
      requires Valid() && IsCString(id)
      modifies this`seen, this`eventSeq, this`objEventSeq, this`out
      ensures Valid() && |out| >= |old(out)| && out[..|old(out)|] == old(out)
      ensures Objects(out[|old(out)|..]) == Receivers(patterns, id, clients, sender, {})
    {
      hide Common, Leq, IsCString, Sorted, Concerns, Objects, At, Receivers;
      var matchLen := 0;
      objEventSeq := objEventSeq + 1;
      assert Done() == {};
      var i := 0;
      ghost var whole := Receivers(patterns, id, clients, sender, {});
      ghost var got: seq<Id> := [];
      NoObjects();
      while i < |patterns|
        invariant i <= |patterns| && Valid() && |out| >= |old(out)| && out[..|old(out)|] == old(out)
        invariant i > 0 ==> matchLen == Common(id, patterns[i-1].key)
        invariant i == 0 ==> matchLen == 0
        invariant Objects(out[|old(out)|..]) == got
          && got + Receivers(patterns[i..], id, clients, sender, Done()) == whole
      {
        var ev := patterns[i];
        ReceiversStep(patterns, i, id, clients, sender, Done());
        var fullMatch, curMatchLen := StrMatchLen(id, ev.key);
        if curMatchLen < matchLen {
          NobodyBehind(patterns, id, i, clients, sender, Done());
          return;
        }
        matchLen := curMatchLen;
        Concerned(id, ev);
        i := i + 1;
        if !fullMatch {
          if !ev.partial {
            continue;
          }
          if matchLen != |ev.key| {
            continue;
          }
        }
        ghost var before, n := out, |old(out)|;
        SendEventMsg(sender, ev.obj);
        if |out| > |before| {
          ObjectsAdd(before[n..], out[|before|]);
          assert out[n..] == before[n..] + [out[|before|]];
          got := got + [ev.obj];
        }
      }
      NobodyReceives([], id, clients, sender, Done());
    }
  }

  function Objects(out: seq<Sent>): (r: seq<Id>)
    ensures |r| == |out|
  {
    if out == [] then [] else [out[0].obj] + Objects(out[1..])
  }

  lemma NoObjects()
    ensures Objects([]) == []
  {
  }

  lemma {:induction false} ObjectsAdd(out: seq<Sent>, m: Sent)
    ensures Objects(out + [m]) == Objects(out) + [m.obj]
  {
    if out == [] {
      assert out + [m] == [m];
    } else {
      ObjectsAdd(out[1..], m);
      assert (out + [m])[1..] == out[1..] + [m];
    }
  }
}
