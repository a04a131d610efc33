/** The daemon's clock arithmetic and its list of timed events, a linked list sorted by time with at most
    one event for each combination of function, code and data. */
module Timers {

  /** A time in seconds and microseconds. */
  datatype Time = Time(sec: int, usec: int)

  /** The microseconds that a time stands for. */
  function Real(t: Time): int {
    t.sec * 1000000 + t.usec
  }

  /** The times that arise: one whole second may be written in the microseconds. */
  predicate InRange(t: Time) {
    0 <= t.usec <= 1000000
  }

  /** E_sub_time. */
  function Sub(t: Time, d: Time): Time {
    if t.usec - d.usec < 0 then Time(t.sec - d.sec - 1, t.usec - d.usec + 1000000)
    else Time(t.sec - d.sec, t.usec - d.usec)
  }

  /** E_add_time: the carry happens only above a million. */
  function Add(t: Time, d: Time): Time {
    if t.usec + d.usec > 1000000 then Time(t.sec + d.sec + 1, t.usec + d.usec - 1000000)
    else Time(t.sec + d.sec, t.usec + d.usec)
  }

  /** E_compare_time. */
  function Compare(a: Time, b: Time): int {
    if a.sec > b.sec then 1 else if a.sec < b.sec then -1
    else if a.usec > b.usec then 1 else if a.usec < b.usec then -1 else 0
  }

  function Sign(x: int): int {
    if x > 0 then 1 else if x < 0 then -1 else 0
  }

  /** Sums and differences are exact to the microsecond and stay in range. */
  lemma ClockIsExact(t: Time, d: Time)
    ensures Real(Add(t, d)) == Real(t) + Real(d) && Real(Sub(t, d)) == Real(t) - Real(d)
    ensures InRange(t) && InRange(d) ==> InRange(Add(t, d)) && InRange(Sub(t, d))
    ensures Real(Sub(Add(t, d), d)) == Real(t) == Real(Add(Sub(t, d), d))
  {
  }

  /** The comparison agrees with real time exactly when the two times do not write the same moment in two
      ways; it never says the opposite. */
  lemma CompareIsReal(a: Time, b: Time)
    requires InRange(a) && InRange(b)
    ensures Compare(a, b) == Sign(Real(a) - Real(b)) <==> (Real(a) == Real(b) ==> a == b)
    ensures Compare(a, b) > 0 ==> Real(a) >= Real(b)
    ensures Compare(a, b) < 0 ==> Real(a) <= Real(b)
    ensures Compare(a, b) == 0 <==> a == b
  {
  }

  /** One second has two spellings, which the sum of two half seconds produces, and they do not compare
      equal. */
  lemma SecondHasTwoSpellings(sec: int)
    ensures Add(Time(sec, 500000), Time(0, 500000)) == Time(sec, 1000000)
    ensures Real(Time(sec, 1000000)) == Real(Time(sec + 1, 0)) && Compare(Time(sec, 1000000), Time(sec + 1, 0)) == -1
  {
  }

  // ---------------------------------------------------------------- the list as a value

  datatype Key = Key(func: int, code: int, data: int)

  datatype TimeEvent = TimeEvent(t: Time, key: Key)

  ghost predicate Sorted(q: seq<TimeEvent>) {
    forall i, j | 0 <= i < j < |q| :: Compare(q[i].t, q[j].t) <= 0
  }

  ghost predicate OneEach(q: seq<TimeEvent>) {
    forall i, j | 0 <= i < j < |q| :: q[i].key != q[j].key
  }

  /** The list without its event for k. */
  function Drop(q: seq<TimeEvent>, k: Key): seq<TimeEvent> {
    if q == [] then [] else if q[0].key == k then q[1..] else [q[0]] + Drop(q[1..], k)
  }

  /** The list with ev in front of the first event that is later. */
  function Put(q: seq<TimeEvent>, ev: TimeEvent): seq<TimeEvent> {
    if q == [] || Compare(ev.t, q[0].t) < 0 then [ev] + q else [q[0]] + Put(q[1..], ev)
  }

  /** E_queue: the new event takes the place of the one for the same key. */
  function Requeue(q: seq<TimeEvent>, ev: TimeEvent): seq<TimeEvent> {
    Put(Drop(q, ev.key), ev)
  }

  /** What is left is what was there, in its order, but for the event for k. */
  lemma {:induction false} DropKeeps(q: seq<TimeEvent>, k: Key)
    requires OneEach(q)
    ensures forall e :: e in Drop(q, k) <==> e in q && e.key != k
    ensures OneEach(Drop(q, k)) && (Sorted(q) ==> Sorted(Drop(q, k)))
    ensures (forall e | e in q :: e.key != k) ==> Drop(q, k) == q
  {
    if q != [] {
      var r := q[1..];
      HeadAndRest(q);
      hide Sorted, OneEach, Compare;
      DropKeeps(r, k);
      if q[0].key != k {
        Front(q[0], Drop(r, k));
      }
    }
  }

  lemma HeadAndRest(q: seq<TimeEvent>)
    requires q != []
    ensures q == [q[0]] + q[1..]
    ensures OneEach(q) ==> OneEach(q[1..]) && forall e | e in q[1..] :: e.key != q[0].key
    ensures Sorted(q) ==> Sorted(q[1..]) && forall e | e in q[1..] :: Compare(q[0].t, e.t) <= 0
  {
    hide Compare;
  }

  lemma Front(e: TimeEvent, r: seq<TimeEvent>)
    ensures OneEach(r) && (forall x | x in r :: x.key != e.key) ==> OneEach([e] + r)
    ensures Sorted(r) && (forall x | x in r :: Compare(e.t, x.t) <= 0) ==> Sorted([e] + r)
  {
    hide Compare;
    var s := [e] + r;
    forall i, j | 0 <= i < j < |s|
      ensures s[j] == r[j - 1] && r[j - 1] in r && (if i == 0 then s[i] == e else s[i] == r[i - 1])
    {
    }
  }

  lemma EarlierThanAll(q: seq<TimeEvent>, t: Time)
    requires Sorted(q) && q != [] && Compare(t, q[0].t) < 0
    ensures forall e | e in q :: Compare(t, e.t) < 0
  {
    forall i | 0 <= i < |q| ensures Compare(t, q[i].t) < 0 {
      assert i == 0 || Compare(q[0].t, q[i].t) <= 0;
    }
  }

  lemma NotEarlier(a: Time, b: Time)
    requires Compare(a, b) >= 0
    ensures Compare(b, a) <= 0
  {
  }

  /** The new event goes behind everything that is not later, so events for one moment run in the order
      they were queued, and nothing else moves. */
  lemma {:induction false} PutPlaces(q: seq<TimeEvent>, ev: TimeEvent) returns (i: nat)
    requires Sorted(q)
    ensures i <= |q| && Put(q, ev) == q[..i] + [ev] + q[i..]
    ensures forall e | e in q[..i] :: Compare(e.t, ev.t) <= 0
    ensures forall e | e in q[i..] :: Compare(ev.t, e.t) < 0
  {
    hide Compare, Sorted;
    if q == [] {
      i := 0;
    } else if Compare(ev.t, q[0].t) < 0 {
      i := 0;
      EarlierThanAll(q, ev.t);
      assert q[0..] == q;
    } else {
      HeadAndRest(q);
      NotEarlier(ev.t, q[0].t);
      var k := PutPlaces(q[1..], ev);
      i := k + 1;
      assert q[..i] == [q[0]] + q[1..][..k] && q[i..] == q[1..][k..];
    }
  }

  lemma SortedConcat(a: seq<TimeEvent>, b: seq<TimeEvent>)
    requires Sorted(a) && Sorted(b) && forall x, y | x in a && y in b :: Compare(x.t, y.t) <= 0
    ensures Sorted(a + b)
  {
    hide Compare;
    forall i, j | 0 <= i < j < |a + b| ensures Compare((a + b)[i].t, (a + b)[j].t) <= 0 {
      if i < |a| && j >= |a| {
        assert (a + b)[i] in a && (a + b)[j] in b;
      }
    }
  }

  lemma OneEachConcat(a: seq<TimeEvent>, b: seq<TimeEvent>)
    requires OneEach(a) && OneEach(b) && forall x, y | x in a && y in b :: x.key != y.key
    ensures OneEach(a + b)
  {
    forall i, j | 0 <= i < j < |a + b| ensures (a + b)[i].key != (a + b)[j].key {
      if i < |a| && j >= |a| {
        assert (a + b)[i] in a && (a + b)[j] in b;
      }
    }
  }

  /** For times in range the order of the list is the order in real time. */
  lemma SortedIsChronological(q: seq<TimeEvent>, i: nat, j: nat)
    requires Sorted(q) && i <= j < |q| && forall e | e in q :: InRange(e.t)
    ensures Real(q[i].t) <= Real(q[j].t)
  {
    if i < j {
      assert q[i] in q && q[j] in q;
      CompareIsReal(q[i].t, q[j].t);
    }
  }

  lemma Parts(q: seq<TimeEvent>, i: nat)
    requires i <= |q|
    ensures Sorted(q) ==> Sorted(q[..i]) && Sorted(q[i..])
    ensures OneEach(q) ==> OneEach(q[..i]) && OneEach(q[i..]) && forall x, y | x in q[..i] && y in q[i..] ::
      x.key != y.key
  {
    hide Compare;
  }

  lemma CompareChain(a: Time, b: Time, c: Time)
    requires Compare(a, b) <= 0 && Compare(b, c) < 0
    ensures Compare(a, c) <= 0
  {
  }

  lemma PutKeeps(q: seq<TimeEvent>, ev: TimeEvent)
    requires Sorted(q) && OneEach(q) && forall e | e in q :: e.key != ev.key
    ensures Sorted(Put(q, ev)) && OneEach(Put(q, ev)) && forall e :: e in Put(q, ev) <==> e == ev || e in q
  {
    hide Compare, Sorted, OneEach, Put;
    var i := PutPlaces(q, ev);
    var front, back := q[..i], q[i..];
    Parts(q, i);
    Front(ev, back);
    assert q == front + back;
    forall x, y | x in front && y in [ev] + back ensures Compare(x.t, y.t) <= 0 && x.key != y.key {
      if y != ev {
        CompareChain(x.t, ev.t, y.t);
      }
    }
    SortedConcat(front, [ev] + back);
    OneEachConcat(front, [ev] + back);
    assert front + [ev] + back == front + ([ev] + back);
  }

  /** Queueing keeps the list sorted and without doubles, changes no other event, and leaves exactly one
      event for the key, at the new time. */
  lemma RequeueKeeps(q: seq<TimeEvent>, ev: TimeEvent)
    requires Sorted(q) && OneEach(q)
    ensures Sorted(Requeue(q, ev)) && OneEach(Requeue(q, ev))
    ensures forall e :: e in Requeue(q, ev) <==> e == ev || (e in q && e.key != ev.key)
    ensures Drop(Requeue(q, ev), ev.key) == Drop(q, ev.key)
  {
    hide Sorted, OneEach, Put, Drop;
    DropKeeps(q, ev.key);
    PutKeeps(Drop(q, ev.key), ev);
    DropPut(Drop(q, ev.key), ev);
  }

  lemma {:induction false} DropPut(q: seq<TimeEvent>, ev: TimeEvent)
    requires forall e | e in q :: e.key != ev.key
    ensures Drop(Put(q, ev), ev.key) == q
  {
    if q != [] && Compare(ev.t, q[0].t) >= 0 {
      DropPut(q[1..], ev);
    }
  }

  // ---------------------------------------------------------------- the list in memory

  /** What is still to be done with the rest of the list, given whether the new event is inserted and the
      old one deleted. */
  function Rest(q: seq<TimeEvent>, ev: TimeEvent, inserted: bool, deleted: bool): seq<TimeEvent> {
    var d := if deleted then q else Drop(q, ev.key);
    if inserted then d else Put(d, ev)
  }

  lemma RestSteps(q: seq<TimeEvent>, ev: TimeEvent, inserted: bool, deleted: bool)
    requires q != []
    ensures q[0].key == ev.key && !deleted ==> Rest(q, ev, inserted, deleted) == Rest(q[1..], ev, inserted, true)
    ensures q[0].key != ev.key && !inserted && Compare(ev.t, q[0].t) < 0 ==>
      Rest(q, ev, inserted, deleted) == [ev, q[0]] + Rest(q[1..], ev, true, deleted)
    ensures q[0].key != ev.key && (inserted || Compare(ev.t, q[0].t) >= 0) ==>
      Rest(q, ev, inserted, deleted) == [q[0]] + Rest(q[1..], ev, inserted, deleted)
  {
    hide Compare, Put, Drop;
    DropStep(q, ev.key);
    PutStep(q, ev);
    PutStep(Drop(q, ev.key), ev);
    if q[0].key != ev.key {
      var d := if deleted then q else Drop(q, ev.key);
      assert d == [q[0]] + (if deleted then q[1..] else Drop(q[1..], ev.key));
      assert d[1..] == if deleted then q[1..] else Drop(q[1..], ev.key);
    }
  }

  lemma DropStep(q: seq<TimeEvent>, k: Key)
    requires q != []
    ensures Drop(q, k) == if q[0].key == k then q[1..] else [q[0]] + Drop(q[1..], k)
    ensures q == [q[0]] + q[1..]
  {
  }

  lemma PutStep(q: seq<TimeEvent>, ev: TimeEvent)
    ensures q != [] ==> Put(q, ev) == if Compare(ev.t, q[0].t) < 0 then [ev] + q else [q[0]] + Put(q[1..], ev)
  {
    hide Compare;
  }

  class TimeNode {
    const ev: TimeEvent
    var next: TimeNode?

    constructor (ev: TimeEvent)
      ensures this.ev == ev && next == null
    {
      this.ev := ev;
      next := null;
    }
  }

  function Events(nodes: seq<TimeNode>): (r: seq<TimeEvent>)
    ensures |r| == |nodes| && forall i | 0 <= i < |r| :: r[i] == nodes[i].ev
  {
    seq(|nodes|, i requires 0 <= i < |nodes| => nodes[i].ev)
  }

  class TimeQueue {
    var head: TimeNode?
    ghost var nodes: seq<TimeNode>

    ghost predicate Linked()
      reads this, nodes
    {
      && Different(nodes) && head == At(nodes, 0)
      && forall i | 0 <= i < |nodes| :: nodes[i].next == At(nodes, i + 1)
    }

    ghost function Contents(): seq<TimeEvent>
      reads this
    {
      Events(nodes)
    }

    ghost predicate Valid()
      reads this, nodes
    {
      Linked() && Sorted(Contents()) && OneEach(Contents())
    }

    constructor ()
      ensures Valid() && Contents() == [] && nodes == []
    {
      head := null;
      nodes := [];
    }

    method InsertFirst(node: TimeNode)
      requires Linked() && node !in nodes
      modifies this, node
      ensures Linked() && nodes == [node] + old(nodes)
    {
      node.next := head;
      head := node;
      nodes := [node] + nodes;
    }

    method RemoveFirst()
      requires Linked() && head != null
      modifies this
      ensures Linked() && nodes == old(nodes)[1..]
    {
      head := head.next;
      nodes := nodes[1..];
    }

    method InsertAfter(pre: TimeNode, node: TimeNode, ghost j: nat)
      requires Linked() && j < |nodes| && nodes[j] == pre && node !in nodes
      modifies this`nodes, pre, node
      ensures Linked() && nodes == old(nodes)[..j + 1] + [node] + old(nodes)[j + 1..]
    {
      node.next := pre.next;
      pre.next := node;
      ghost var before := nodes;
      nodes := nodes[..j + 1] + [node] + nodes[j + 1..];
      StillDifferent(before, node, j + 1);
      hide Different;
      forall i | 0 <= i < |nodes| ensures nodes[i].next == At(nodes, i + 1) {
        assert nodes[i] == if i <= j then before[i] else if i == j + 1 then node else before[i - 1];
      }
    }

    method RemoveAfter(pre: TimeNode, ghost j: nat)
      requires Linked() && j + 1 < |nodes| && nodes[j] == pre
      modifies this`nodes, pre
      ensures Linked() && nodes == old(nodes)[..j + 1] + old(nodes)[j + 2..]
    {
      pre.next := pre.next.next;
      nodes := nodes[..j + 1] + nodes[j + 2..];
    }

    /** The part of E_queue that works at the head of the list. `done`: the list was empty. */
    method QueueFirst(t_e: TimeNode) returns (inserted: bool, deleted: bool, done: bool)
      requires Linked() && t_e !in nodes && OneEach(Contents())
      modifies this, t_e
      ensures Linked() && nodes != [] && (forall n | n in nodes :: n in old(nodes) || n == t_e)
      ensures (inserted <==> t_e in nodes) && t_e !in nodes[1..]
      ensures OneEach(Contents()[1..]) && (deleted ==> forall e | e in Contents()[1..] :: e.key != t_e.ev.key)
      ensures done ==> Requeue(old(Contents()), t_e.ev) == Contents()
      ensures !done ==>
        Requeue(old(Contents()), t_e.ev) == Contents()[..1] + Rest(Contents()[1..], t_e.ev, inserted, deleted)
    {
      hide Requeue, Rest, Compare, OneEach;
      FirstSteps(Contents(), t_e.ev);
      inserted, deleted, done := false, false, false;
      ghost var q := Contents();
      if head != null {
        if head.ev.key == t_e.ev.key {
          RemoveFirst();
          deleted := true;
          assert Contents() == q[1..];
        }
      }
      ghost var r := Contents();
      if head == null {
        InsertFirst(t_e);
        inserted, done := true, true;
        assert Contents() == [t_e.ev] && Contents()[1..] == [];
        return;
      }
      if Compare(t_e.ev.t, head.ev.t) < 0 {
        InsertFirst(t_e);
        inserted := true;
        assert Contents()[1..] == r && Contents()[..1] == [t_e.ev];
      } else {
        assert Contents()[..1] == [r[0]];
      }
    }

    lemma HeadIs()
      requires Linked()
      ensures (head == null <==> Contents() == [])
      ensures head != null ==> nodes != [] && head == nodes[0] && head.ev == Contents()[0]
    {
    }

    lemma StillLinked()
      requires Valid()
      ensures Linked() && OneEach(Contents())
    {
    }

    lemma FirstLinks()
      requires Linked() && nodes != []
      ensures head == nodes[0] && head.next == At(nodes, 1)
    {
    }

    lemma LinkAt(j: nat)
      requires Linked() && j < |nodes|
      ensures nodes[j].next == At(nodes, j + 1)
    {
    }

    /** The loop of E_queue behind the head, with its two pointers. */
    method QueueRest(t_e: TimeNode, inserted0: bool, deleted0: bool)
      requires Linked() && nodes != [] && (inserted0 <==> t_e in nodes) && t_e !in nodes[1..]
      requires OneEach(Contents()[1..]) && (deleted0 ==> forall e | e in Contents()[1..] :: e.key != t_e.ev.key)
      modifies this`nodes, nodes, t_e
      ensures Linked() && (forall n | n in nodes :: n in old(nodes) || n == t_e)
      ensures Contents() == old(Contents())[..1] + Rest(old(Contents())[1..], t_e.ev, inserted0, deleted0)
    {
      hide AtStep, Compare, Linked, Different, OneEach, Rest, Events, At;
      ghost var target := Contents()[..1] + Rest(Contents()[1..], t_e.ev, inserted0, deleted0);
      FirstLinks();
      Begins(nodes, t_e, inserted0, deleted0, target);
      var inserted, pre := QueueLoop(t_e, inserted0, deleted0, target);
      if !inserted {
        ghost var before := nodes;
        assert pre in nodes;
        InsertAfter(pre, t_e, |nodes| - 1);
        assert before[..|before| - 1 + 1] + [t_e] + before[|before|..] == before + [t_e];
      }
    }

    method QueueLoop(t_e: TimeNode, inserted0: bool, deleted0: bool, ghost target: seq<TimeEvent>)
        returns (inserted: bool, pre: TimeNode)
      requires Linked() && nodes != [] && (inserted0 <==> t_e in nodes)
      requires AtStep(nodes, t_e, At(nodes, 1), inserted0, deleted0, 0, target)
      modifies this`nodes, nodes, t_e
      ensures Linked() && (forall n | n in nodes :: n in old(nodes) || n == t_e)
      ensures inserted ==> Contents() == target
      ensures !inserted ==> nodes != [] && pre == nodes[|nodes| - 1] && t_e !in nodes && Events(nodes + [t_e]) == target
    {
      hide AtStep, Compare, Linked, Different, Events, At;
      FirstLinks();
      var deleted := deleted0;
      inserted, pre := inserted0, head;
      var post := head.next;
      ghost var j := 0;
      while post != null && (!inserted || !deleted)
        invariant Linked() && j < |nodes| && pre == nodes[j] && post == At(nodes, j + 1)
        invariant AtStep(nodes, t_e, post, inserted, deleted, j, target) && (!inserted ==> t_e !in nodes)
        invariant forall n | n in nodes :: n in old(nodes) || n == t_e
        decreases |nodes| - j
      {
        assert pre in nodes;
        if post.ev.key == t_e.ev.key {
          post := DeleteStep(t_e, pre, post, inserted, deleted, j, target);
          deleted := true;
          continue;
        }
        if !inserted && Compare(t_e.ev.t, post.ev.t) < 0 {
          InsertStep(t_e, pre, post, deleted, j, target);
          inserted := true;
          j := j + 2;
        } else {
          StepSkipped(nodes, t_e, post, inserted, deleted, j, target);
          LinkAt(j + 1);
          j := j + 1;
        }
        pre := post;
        post := post.next;
      }
      Ends(nodes, t_e, post, inserted, deleted, j, target);
    }

    method DeleteStep(t_e: TimeNode, pre: TimeNode, post0: TimeNode, ghost inserted: bool, ghost deleted: bool,
                      ghost j: nat,
                      ghost target: seq<TimeEvent>)
        returns (post: TimeNode?)
      requires Linked() && j < |nodes| && pre == nodes[j] && post0.ev.key == t_e.ev.key
      requires AtStep(nodes, t_e, post0, inserted, deleted, j, target)
      modifies this`nodes, pre
      ensures Linked() && j < |nodes| < old(|nodes|) && pre == nodes[j] && post == At(nodes, j + 1)
      ensures AtStep(nodes, t_e, post, inserted, true, j, target) && forall n | n in nodes :: n in old(nodes)
    {
      hide AtStep, Linked, At, Different;
      StepDeleted(nodes, t_e, post0, inserted, deleted, j, target);
      RemoveAfter(pre, j);
      LinkAt(j);
      post := pre.next;
    }

    method InsertStep(t_e: TimeNode, pre: TimeNode, post: TimeNode, ghost deleted: bool, ghost j: nat,
                      ghost target: seq<TimeEvent>)
      requires Linked() && j < |nodes| && pre == nodes[j] && t_e !in nodes
      requires AtStep(nodes, t_e, post, false, deleted, j, target)
      requires post.ev.key != t_e.ev.key && Compare(t_e.ev.t, post.ev.t) < 0
      modifies this`nodes, pre, t_e
      ensures Linked() && |nodes| == old(|nodes|) + 1 && j + 2 < |nodes| && nodes[j + 2] == post
      ensures post.next == At(nodes, j + 3)
      ensures AtStep(nodes, t_e, post.next, true, deleted, j + 2, target) && forall n | n in nodes ::
        n in old(nodes) || n == t_e
    {
      hide AtStep, Linked, At, Different, Compare;
      StepInserted(nodes, t_e, post, deleted, j, target);
      InsertAfter(pre, t_e, j);
      LinkAt(j + 2);
    }

    /** E_queue: the event is due `delta` from now, and replaces the one queued for the same key. */
    method Queue(now: Time, delta: Time, key: Key)
      requires Valid()
      modifies this, nodes
      ensures Valid() && Contents() == Requeue(old(Contents()), TimeEvent(Add(now, delta), key))
      ensures forall n | n in nodes :: n in old(nodes) || fresh(n)
    {
      hide Requeue, Rest, Sorted, OneEach, Linked, Add;
      RequeueKeeps(Contents(), TimeEvent(Add(now, delta), key));
      var t_e := new TimeNode(TimeEvent(Add(now, delta), key));
      assert t_e !in nodes;
      StillLinked();
      var inserted, deleted, done := QueueFirst(t_e);
      if !done {
        assert forall i | 0 <= i < |nodes| :: nodes[i] in old(nodes) || nodes[i] == t_e;
        QueueRest(t_e, inserted, deleted);
      }
    }

    /** E_dequeue: removes the event for the key and says whether there was one. */
    method Dequeue(key: Key) returns (found: bool)
      requires Valid()
      modifies this, nodes
      ensures Valid() && Contents() == Drop(old(Contents()), key)
      ensures found <==> exists e :: e in old(Contents()) && e.key == key
    {
      hide Drop, Sorted, OneEach, Linked, Events, At;
      ghost var q := Contents();
      DropKeeps(q, key);
      DropFirst(q, key);
      HeadIs();
      if head == null {
        return false;
      }
      if head.ev.key == key {
        RemoveFirst();
        assert Contents() == q[1..];
        assert q[0] in q;
        return true;
      }
      var pre: TimeNode := head;
      ghost var j := 0;
      LinkAt(0);
      while pre.next != null
        invariant Linked() && nodes == old(nodes) && j < |nodes| && pre == nodes[j] && pre.next == At(nodes, j + 1)
        invariant forall i | 0 <= i <= j :: q[i].key != key
        decreases |nodes| - j
      {
        var ptr: TimeNode := pre.next;
        NodeAt(nodes, j + 1);
        if ptr.ev.key == key {
          RemoveAfter(pre, j);
          DropAt(q, key, j + 1);
          EventsWithout(old(nodes), j, nodes);
          assert q[j + 1] in q;
          return true;
        }
        pre := ptr;
        j := j + 1;
        LinkAt(j);
      }
      NodeAt(nodes, j + 1);
      return false;
    }
  }

  /** The list after the event at its head was deleted if it was for the key. */
  function Headless(q: seq<TimeEvent>, k: Key): seq<TimeEvent> {
    if q != [] && q[0].key == k then q[1..] else q
  }

  lemma FirstSteps(q: seq<TimeEvent>, ev: TimeEvent)
    requires OneEach(q)
    ensures var r, deleted := Headless(q, ev.key), q != [] && q[0].key == ev.key;
      && OneEach(r) && OneEach([]) && (r != [] ==> OneEach(r[1..]))
      && (deleted ==> forall e | e in r :: e.key != ev.key)
      && (r == [] ==> Requeue(q, ev) == [ev])
      && (r != [] && Compare(ev.t, r[0].t) < 0 ==> Requeue(q, ev) == [ev] + Rest(r, ev, true, deleted))
      && (r != [] && Compare(ev.t, r[0].t) >= 0 ==> Requeue(q, ev) == [r[0]] + Rest(r[1..], ev, false, deleted))
  {
    hide Compare;
    if q != [] {
      HeadAndRest(q);
    }
    var r := Headless(q, ev.key);
    if r != [] {
      HeadAndRest(r);
    }
  }

  lemma NextEvent(c: seq<TimeEvent>, j: nat)
    requires j + 1 < |c| && OneEach(c[j + 1..])
    ensures c[j + 1..] == [c[j + 1]] + c[j + 2..] && c[j + 1..][1..] == c[j + 2..]
    ensures c[..j + 2] == c[..j + 1] + [c[j + 1]]
    ensures OneEach(c[j + 2..]) && forall e | e in c[j + 2..] :: e.key != c[j + 1].key
  {
    HeadAndRest(c[j + 1..]);
    assert c[j + 1..][1..] == c[j + 2..];
  }

  /** How far the loop of E_queue is: its pointers stand at j and j + 1, what is before them is final, and
      what is to be done behind them gives the target. */
  ghost predicate AtStep(nodes: seq<TimeNode>, t_e: TimeNode, post: TimeNode?, inserted: bool, deleted: bool,
                         j: nat, target: seq<TimeEvent>) {
    && j < |nodes| && post == At(nodes, j + 1)
    && t_e !in nodes[j + 1..] && (inserted <==> t_e in nodes)
    && OneEach(Events(nodes)[j + 1..]) && (deleted ==> forall e | e in Events(nodes)[j + 1..] :: e.key != t_e.ev.key)
    && target == Events(nodes)[..j + 1] + Rest(Events(nodes)[j + 1..], t_e.ev, inserted, deleted)
  }

  lemma Begins(nodes: seq<TimeNode>, t_e: TimeNode, inserted: bool, deleted: bool, target: seq<TimeEvent>)
    requires nodes != [] && (inserted <==> t_e in nodes) && t_e !in nodes[1..]
    requires OneEach(Events(nodes)[1..]) && (deleted ==> forall e | e in Events(nodes)[1..] :: e.key != t_e.ev.key)
    requires target == Events(nodes)[..1] + Rest(Events(nodes)[1..], t_e.ev, inserted, deleted)
    ensures AtStep(nodes, t_e, At(nodes, 1), inserted, deleted, 0, target)
  {
  }

  lemma StepDeleted(before: seq<TimeNode>, t_e: TimeNode, post: TimeNode, inserted: bool, deleted: bool, j: nat,
                    target: seq<TimeEvent>)
    requires AtStep(before, t_e, post, inserted, deleted, j, target) && post.ev.key == t_e.ev.key
    ensures j + 1 < |before|
    ensures var nodes := before[..j + 1] + before[j + 2..];
      && AtStep(nodes, t_e, At(nodes, j + 1), inserted, true, j, target) && nodes[j] == before[j]
      && forall n | n in nodes :: n in before
  {
    hide Rest, OneEach, Events, At;
    AfterSkip(before, j, t_e);
    var c, nodes := Events(before), before[..j + 1] + before[j + 2..];
    NextEvent(c, j);
    RestSteps(c[j + 1..], t_e.ev, inserted, deleted);
    assert c[j + 1] in c[j + 1..];
    AfterRemoval(before, j, nodes, t_e);
  }

  lemma StepInserted(before: seq<TimeNode>, t_e: TimeNode, post: TimeNode, deleted: bool, j: nat,
                     target: seq<TimeEvent>)
    requires AtStep(before, t_e, post, false, deleted, j, target) && post.ev.key != t_e.ev.key
    requires Compare(t_e.ev.t, post.ev.t) < 0
    ensures j + 1 < |before|
    ensures var nodes := before[..j + 1] + [t_e] + before[j + 1..];
      && AtStep(nodes, t_e, At(nodes, j + 3), true, deleted, j + 2, target) && nodes[j + 2] == post
      && forall n | n in nodes :: n in before || n == t_e
  {
    hide Rest, OneEach, Events, At, Compare;
    AfterSkip(before, j, t_e);
    var c, nodes := Events(before), before[..j + 1] + [t_e] + before[j + 1..];
    NextEvent(c, j);
    RestSteps(c[j + 1..], t_e.ev, false, deleted);
    AfterInsertion(before, j + 1, t_e, nodes);
    assert target == c[..j + 1] + ([t_e.ev, c[j + 1]] + Rest(c[j + 2..], t_e.ev, true, deleted));
  }

  lemma StepSkipped(nodes: seq<TimeNode>, t_e: TimeNode, post: TimeNode, inserted: bool, deleted: bool, j: nat,
                    target: seq<TimeEvent>)
    requires AtStep(nodes, t_e, post, inserted, deleted, j, target) && post.ev.key != t_e.ev.key
    requires inserted || Compare(t_e.ev.t, post.ev.t) >= 0
    ensures j + 1 < |nodes| && nodes[j + 1] == post
    ensures AtStep(nodes, t_e, At(nodes, j + 2), inserted, deleted, j + 1, target)
  {
    hide Rest, OneEach, Events, At, Compare;
    var c := Events(nodes);
    AfterSkip(nodes, j, t_e);
    NextEvent(c, j);
    RestSteps(c[j + 1..], t_e.ev, inserted, deleted);
    assert target == c[..j + 1] + ([c[j + 1]] + Rest(c[j + 2..], t_e.ev, inserted, deleted));
  }

  /** When the loop ends, the list is the target, or becomes it with the new event at the end. */
  lemma Ends(nodes: seq<TimeNode>, t_e: TimeNode, post: TimeNode?, inserted: bool, deleted: bool, j: nat,
             target: seq<TimeEvent>)
    requires AtStep(nodes, t_e, post, inserted, deleted, j, target) && (post == null || (inserted && deleted))
    ensures inserted ==> Events(nodes) == target
    ensures !inserted ==> j + 1 == |nodes| && t_e !in nodes && Events(nodes + [t_e]) == target
  {
    hide Rest, OneEach;
    RestDone(Events(nodes)[j + 1..], t_e.ev, inserted, deleted);
  }

  lemma AfterRemoval(before: seq<TimeNode>, j: nat, nodes: seq<TimeNode>, node: TimeNode)
    requires j + 1 < |before| && nodes == before[..j + 1] + before[j + 2..]
    ensures Events(nodes)[..j + 1] == Events(before)[..j + 1] && Events(nodes)[j + 1..] == Events(before)[j + 2..]
    ensures node !in before[j + 1..] ==> (node in nodes <==> node in before) && node !in nodes[j + 1..]
    ensures nodes[j] == before[j] && forall n | n in nodes :: n in before
  {
    assert before == before[..j + 1] + before[j + 1..];
    assert nodes[j + 1..] == before[j + 2..];
    assert before[j + 1..][1..] == before[j + 2..];
  }

  lemma NodeAt(nodes: seq<TimeNode>, i: nat)
    requires i <= |nodes|
    ensures (At(nodes, i) == null <==> i == |nodes|) && |Events(nodes)| == |nodes|
    ensures i < |nodes| ==> At(nodes, i) == nodes[i] && nodes[i].ev == Events(nodes)[i]
  {
  }

  lemma EventsWithout(before: seq<TimeNode>, j: nat, nodes: seq<TimeNode>)
    requires j + 1 < |before| && nodes == before[..j + 1] + before[j + 2..]
    ensures Events(nodes) == Events(before)[..j + 1] + Events(before)[j + 2..]
  {
  }

  lemma AfterSkip(nodes: seq<TimeNode>, j: nat, node: TimeNode)
    requires j < |nodes| && At(nodes, j + 1) != null && node !in nodes[j + 1..]
    ensures j + 1 < |nodes| && At(nodes, j + 1) == nodes[j + 1] && nodes[j + 1].ev == Events(nodes)[j + 1]
    ensures node !in nodes[j + 2..] && nodes[j + 1] != node
  {
    assert nodes[j + 1..] == [nodes[j + 1]] + nodes[j + 2..];
  }

  lemma AfterInsertion(before: seq<TimeNode>, j: nat, node: TimeNode, nodes: seq<TimeNode>)
    requires 0 < j < |before| && nodes == before[..j] + [node] + before[j..] && node !in before
    ensures Events(nodes)[..j + 2] == Events(before)[..j] + [node.ev, before[j].ev]
    ensures Events(nodes)[j + 2..] == Events(before)[j + 1..] && nodes[j + 1] == before[j]
    ensures node in nodes && node !in nodes[j + 2..] && forall n | n in nodes :: n in before || n == node
  {
    assert nodes[j + 2..] == before[j + 1..];
    assert nodes[j] == node;
  }

  lemma DropFirst(q: seq<TimeEvent>, k: Key)
    ensures q != [] && q[0].key == k ==> Drop(q, k) == q[1..]
    ensures q == [] ==> Drop(q, k) == q
  {
  }

  lemma {:induction false} DropAt(q: seq<TimeEvent>, k: Key, i: nat)
    requires i < |q| && q[i].key == k && forall j | 0 <= j < i :: q[j].key != k
    ensures Drop(q, k) == q[..i] + q[i + 1..]
  {
    if i > 0 {
      DropAt(q[1..], k, i - 1);
      assert q[..i] + q[i + 1..] == [q[0]] + (q[1..][..i - 1] + q[1..][i..]);
    }
  }

  lemma RestDone(q: seq<TimeEvent>, ev: TimeEvent, inserted: bool, deleted: bool)
    ensures inserted && deleted ==> Rest(q, ev, inserted, deleted) == q
    ensures q == [] ==> Rest(q, ev, inserted, deleted) == if inserted then [] else [ev]
  {
  }

  lemma StillDifferent(nodes: seq<TimeNode>, node: TimeNode, i: nat)
    requires Different(nodes) && node !in nodes && i <= |nodes|
    ensures Different(nodes[..i] + [node] + nodes[i..])
  {
    var r := nodes[..i] + [node] + nodes[i..];
    forall a, b | 0 <= a < b < |r| ensures r[a] != r[b] {
      assert r[a] == if a < i then nodes[a] else if a == i then node else nodes[a - 1];
      assert r[b] == if b < i then nodes[b] else if b == i then node else nodes[b - 1];
    }
  }

  ghost function At(nodes: seq<TimeNode>, i: nat): TimeNode? {
    if i < |nodes| then nodes[i] else null
  }

  ghost predicate Different(nodes: seq<TimeNode>) {
    forall i, j | 0 <= i < j < |nodes| :: nodes[i] != nodes[j]
  }
}
