/** The descriptor tables as the daemon keeps them, fixed arrays that are changed in place, and the scan
    that serves one low-priority descriptor per iteration of the event loop. */
module EventLoop {
  import opened FdTables

  class FdTable {
    const events: array<FdEvent>
    var numFds: nat
    var numActive: int

    ghost predicate Valid()
      reads this
    {
      events.Length == MAX_FD_EVENTS && numFds <= events.Length
    }

    ghost function Abs(): FdQueue
      requires Valid()
      reads this, events
    {
      FdQueue(events[..numFds], numActive)
    }

    constructor ()
      ensures Valid() && fresh(events) && Abs() == FdQueue([], 0)
    {
      events := new FdEvent[MAX_FD_EVENTS](_ => FdEvent(0, 0, Handler(0, 0, 0), false));
      numFds := 0;
      numActive := 0;
    }

    /** The scan for the entry of a pair. */
    method Find(fd: int, fdType: int) returns (j: nat)
      requires Valid()
      ensures j == IndexOf(events[..numFds], fd, fdType)
    {
      j := 0;
      while j < numFds && !(events[j].fd == fd && events[j].fdType == fdType)
        invariant j <= numFds && forall k | 0 <= k < j :: !Matches(events[k], fd, fdType)
      {
        j := j + 1;
      }
      FirstMatch(events[..numFds], fd, fdType, j);
    }

    method Insert(fd: int, fdType: int, h: Handler)
      requires Valid() && (Holds(Abs(), fd, fdType) || numFds < MAX_FD_EVENTS)
      modifies this, events
      ensures Valid() && Abs() == Enter(old(Abs()), fd, fdType, h)
    {
      hide IndexOf;
      var j := Find(fd, fdType);
      if j < numFds {
        if !events[j].active {
          numActive := numActive + 1;
        }
        events[j] := FdEvent(fd, fdType, h, true);
      } else {
        events[numFds] := FdEvent(fd, fdType, h, true);
        numFds := numFds + 1;
        numActive := numActive + 1;
      }
    }

    /** The last entry takes the removed one's place. */
    method Remove(fd: int, fdType: int) returns (found: bool)
      requires Valid()
      modifies this, events
      ensures Valid() && Abs() == Drop(old(Abs()), fd, fdType) && (found <==> old(Holds(Abs(), fd, fdType)))
    {
      hide IndexOf;
      var j := Find(fd, fdType);
      found := j < numFds;
      if found {
        if events[j].active {
          numActive := numActive - 1;
        }
        numFds := numFds - 1;
        events[j] := events[numFds];
      }
    }

    method SetActive(fd: int, fdType: int, on: bool) returns (found: bool)
      requires Valid()
      modifies this, events
      ensures Valid() && Abs() == Switch(old(Abs()), fd, fdType, on) && (found <==> old(Holds(Abs(), fd, fdType)))
    {
      hide IndexOf;
      var j := Find(fd, fdType);
      found := j < numFds;
      if found {
        if events[j].active && !on {
          numActive := numActive - 1;
        }
        if !events[j].active && on {
          numActive := numActive + 1;
        }
        events[j] := events[j].(active := on);
      }
    }
  }

  lemma {:induction false} FirstMatch(q: seq<FdEvent>, fd: int, fdType: int, j: nat)
    requires j <= |q| && (j < |q| ==> Matches(q[j], fd, fdType)) && forall k | 0 <= k < j :: !Matches(q[k], fd, fdType)
    ensures j == IndexOf(q, fd, fdType)
  {
  }

  /** Fd_queue, Fd_mask and Active_priority. */
  class EventTables {
    const queue: seq<FdTable>
    var mask: seq<set<int>>
    var threshold: int

    ghost predicate Valid()
      reads this, queue, set q | q in queue :: q.events
    {
      && |queue| == NUM_PRIORITY && |mask| == NUM_FDTYPES
      && (forall i | 0 <= i < 3 :: queue[i].Valid())
      && (forall i, j | 0 <= i < j < 3 :: queue[i] != queue[j] && queue[i].events != queue[j].events)
    }

    ghost function Abs(): Tables
      requires Valid()
      reads this, queue, set q | q in queue :: q.events
    {
      Tables([queue[0].Abs(), queue[1].Abs(), queue[2].Abs()], mask, threshold)
    }

    /** E_init. */
    constructor ()
      ensures Valid() && Abs() == Init() && fresh(queue) && fresh(set q | q in queue :: q.events)
    {
      var low := new FdTable();
      var medium := new FdTable();
      var high := new FdTable();
      queue := [low, medium, high];
      mask := [{}, {}, {}];
      threshold := LOW_PRIORITY;
    }

    /** The entries of one priority; the other priorities' stay as they are. */
    method InsertAt(i: nat, fd: int, fdType: int, h: Handler)
      requires Valid() && i < 3 && (Holds(queue[i].Abs(), fd, fdType) || queue[i].numFds < MAX_FD_EVENTS)
      modifies queue, set q | q in queue :: q.events
      ensures Valid() && Abs() == old(Abs()).(queues := Abs().queues)
      ensures Abs().queues == old(Abs()).queues[i := Enter(old(Abs()).queues[i], fd, fdType, h)]
    {
      hide Enter, IndexOf;
      assert queue[i] in queue && queue[i].events in set q | q in queue :: q.events;
      queue[i].Insert(fd, fdType, h);
    }

    method RemoveAt(i: nat, fd: int, fdType: int) returns (found: bool)
      requires Valid() && i < 3
      modifies queue, set q | q in queue :: q.events
      ensures Valid() && Abs() == old(Abs()).(queues := Abs().queues)
      ensures Abs().queues == old(Abs()).queues[i := Drop(old(Abs()).queues[i], fd, fdType)]
      ensures found <==> Holds(old(Abs()).queues[i], fd, fdType)
    {
      hide Drop, IndexOf;
      assert queue[i] in queue && queue[i].events in set q | q in queue :: q.events;
      found := queue[i].Remove(fd, fdType);
    }

    method SwitchAt(i: nat, fd: int, fdType: int, on: bool) returns (found: bool)
      requires Valid() && i < 3
      modifies queue, set q | q in queue :: q.events
      ensures Valid() && Abs() == old(Abs()).(queues := Abs().queues)
      ensures Abs().queues == old(Abs()).queues[i := Switch(old(Abs()).queues[i], fd, fdType, on)]
      ensures found <==> Holds(old(Abs()).queues[i], fd, fdType)
    {
      hide Switch, IndexOf;
      assert queue[i] in queue && queue[i].events in set q | q in queue :: q.events;
      found := queue[i].SetActive(fd, fdType, on);
    }

    method AttachFd(fd: int, fdType: int, h: Handler, priority: int) returns (code: int)
      requires Valid() && !Attach(Abs(), fd, fdType, h, priority).Behind?
      modifies this`mask, queue, set q | q in queue :: q.events
      ensures Valid() && Answer(Abs(), code) == Attach(old(Abs()), fd, fdType, h, priority)
    {
      hide IndexOf, Enter;
      if priority < 0 || priority > NUM_PRIORITY || fdType < 0 || fdType > NUM_FDTYPES || fd < 0 || fd > FD_SETSIZE {
        return -1;
      }
      var j := queue[priority].Find(fd, fdType);
      if j < queue[priority].numFds {
        InsertAt(priority, fd, fdType, h);
        return 1;
      }
      if queue[priority].numFds == MAX_FD_EVENTS {
        return -1;
      }
      InsertAt(priority, fd, fdType, h);
      if threshold <= priority {
        mask := mask[fdType := mask[fdType] + {fd}];
      }
      return 0;
    }

    method DetachFd(fd: int, fdType: int) returns (code: int)
      requires Valid() && !Detach(Abs(), fd, fdType).Behind?
      modifies this`mask, queue, set q | q in queue :: q.events
      ensures Valid() && Answer(Abs(), code) == Detach(old(Abs()), fd, fdType)
    {
      hide Holds, Drop, FdTable.Abs;
      if fdType < 0 || fdType > NUM_FDTYPES {
        return -1;
      }
      ghost var t := Abs();
      var found := false;
      for i := 0 to NUM_PRIORITY
        invariant Valid()
        invariant Abs().queues == FirstDone(q => Drop(q, fd, fdType), t.queues, i) && threshold == t.threshold
        invariant found <==> FirstHold(t.queues, fd, fdType, i)
        invariant mask == if found then t.mask[fdType := t.mask[fdType] - {fd}] else t.mask
      {
        var here := RemoveAt(i, fd, fdType);
        if here {
          ClearAgain(t.mask, fd, fdType);
          mask := mask[fdType := mask[fdType] - {fd}];
          found := true;
        }
      }
      DropsNone(t, fd, fdType);
      return if found then 0 else -1;
    }

    method DeactivateFd(fd: int, fdType: int) returns (code: int)
      requires Valid() && !Deactivate(Abs(), fd, fdType).Behind?
      modifies this`mask, queue, set q | q in queue :: q.events
      ensures Valid() && Answer(Abs(), code) == Deactivate(old(Abs()), fd, fdType)
    {
      hide Holds, Switch, FdTable.Abs;
      if fdType < 0 || fdType > NUM_FDTYPES {
        return -1;
      }
      ghost var t := Abs();
      var found := false;
      for i := 0 to NUM_PRIORITY
        invariant Valid()
        invariant Abs().queues == FirstDone(q => Switch(q, fd, fdType, false), t.queues, i) && threshold == t.threshold
        invariant found <==> FirstHold(t.queues, fd, fdType, i)
        invariant mask == if found then t.mask[fdType := t.mask[fdType] - {fd}] else t.mask
      {
        var here := SwitchAt(i, fd, fdType, false);
        if here {
          ClearAgain(t.mask, fd, fdType);
          mask := mask[fdType := mask[fdType] - {fd}];
          found := true;
        }
      }
      SwitchesNone(t, fd, fdType, false);
      return if found then 0 else -1;
    }

    method ActivateFd(fd: int, fdType: int) returns (code: int)
      requires Valid() && !Activate(Abs(), fd, fdType).Behind?
      modifies this`mask, queue, set q | q in queue :: q.events
      ensures Valid() && Answer(Abs(), code) == Activate(old(Abs()), fd, fdType)
    {
      hide Holds, Switch, FdTable.Abs;
      if fdType < 0 || fdType > NUM_FDTYPES {
        return -1;
      }
      ghost var t := Abs();
      var found := false;
      for i := 0 to NUM_PRIORITY
        invariant Valid()
        invariant Abs().queues == FirstDone(q => Switch(q, fd, fdType, true), t.queues, i) && threshold == t.threshold
        invariant found <==> FirstHold(t.queues, fd, fdType, i)
        invariant mask == if FirstWatch(t, fd, fdType, i) then t.mask[fdType := t.mask[fdType] + {fd}] else t.mask
      {
        var here := SwitchAt(i, fd, fdType, true);
        if here {
          if i >= threshold {
            SetAgain(t.mask, fd, fdType);
            mask := mask[fdType := mask[fdType] + {fd}];
          }
          found := true;
        }
      }
      SwitchesNone(t, fd, fdType, true);
      return if found then 0 else -1;
    }

    /** E_set_active_threshold: the masks are rebuilt from the entries at or above the new threshold. */
    method SetActiveThreshold(priority: int) returns (code: int)
      requires Valid() && !SetThreshold(Abs(), priority).Behind?
      modifies this`mask, this`threshold
      ensures Valid() && Answer(Abs(), code) == SetThreshold(old(Abs()), priority)
    {
      hide FdTable.Abs, ActiveIn, ActiveBetween, Active, ActiveHaveBits;
      if priority < 0 || priority > NUM_PRIORITY {
        return -1;
      }
      if priority == threshold {
        return priority;
      }
      ghost var t := Abs();
      Rebuilt(t, priority, 0);
      Rebuilt(t, priority, 1);
      Rebuilt(t, priority, 2);
      threshold := priority;
      mask := [{}, {}, {}];
      for i := priority to NUM_PRIORITY
        invariant Valid() && threshold == priority && Abs().queues == t.queues
        invariant forall ty | 0 <= ty < 3 :: mask[ty] == ActiveBetween(t.queues, priority, i, ty)
      {
        OneMoreBetween(t.queues, priority, i, 0);
        OneMoreBetween(t.queues, priority, i, 1);
        OneMoreBetween(t.queues, priority, i, 2);
        MarkActive(i);
      }
      return priority;
    }

    /** Sets the bits of the active entries of one priority. */
    method MarkActive(i: nat)
      requires Valid() && i < 3 && ActiveHaveBits(queue[i].Abs())
      modifies this`mask
      ensures Valid() && forall ty | 0 <= ty < 3 :: mask[ty] == old(mask)[ty] + ActiveIn(queue[i].Abs(), ty)
    {
      ghost var q := queue[i].Abs();
      for j := 0 to queue[i].numFds
        invariant |mask| == 3
        invariant forall ty | 0 <= ty < 3 :: mask[ty] == old(mask)[ty] + ActiveIn(FdQueue(q.events[..j], 0), ty)
      {
        var e := queue[i].events[j];
        assert e == q.events[j] && e in q.events;
        NextActive(q.events, j);
        if e.active {
          mask := mask[e.fdType := mask[e.fdType] + {e.fd}];
        }
      }
      assert q.events[..queue[i].numFds] == q.events;
      SameEntries(q);
    }
  }

  ghost predicate FirstWatch(t: Tables, fd: int, fdType: int, n: nat)
    requires Shaped(t)
  {
    || (n > 0 && 0 >= t.threshold && Holds(t.queues[0], fd, fdType))
    || (n > 1 && 1 >= t.threshold && Holds(t.queues[1], fd, fdType))
    || (n > 2 && 2 >= t.threshold && Holds(t.queues[2], fd, fdType))
  }

  lemma ClearAgain(mask: seq<set<int>>, fd: int, fdType: int)
    requires 0 <= fdType < |mask|
    ensures var m := mask[fdType := mask[fdType] - {fd}]; m[fdType := m[fdType] - {fd}] == m
  {
    assert mask[fdType] - {fd} - {fd} == mask[fdType] - {fd};
  }

  lemma SetAgain(mask: seq<set<int>>, fd: int, fdType: int)
    requires 0 <= fdType < |mask|
    ensures var m := mask[fdType := mask[fdType] + {fd}]; m[fdType := m[fdType] + {fd}] == m
  {
    assert mask[fdType] + {fd} + {fd} == mask[fdType] + {fd};
  }

  lemma AllDone(f: FdQueue -> FdQueue, t: Tables)
    requires Shaped(t)
    ensures FirstDone(f, t.queues, 3) == EachQueue(f, t)
    ensures (forall i | 0 <= i < 3 :: f(t.queues[i]) == t.queues[i]) ==> FirstDone(f, t.queues, 3) == t.queues
  {
    assert t.queues == [t.queues[0], t.queues[1], t.queues[2]];
  }

  lemma DropsNone(t: Tables, fd: int, fdType: int)
    requires Shaped(t)
    ensures FirstDone(q => Drop(q, fd, fdType), t.queues, 3) == EachQueue(q => Drop(q, fd, fdType), t)
    ensures !Anywhere(t, fd, fdType) ==> FirstDone(q => Drop(q, fd, fdType), t.queues, 3) == t.queues
  {
    hide IndexOf, FirstDone, EachQueue;
    AllDone(q => Drop(q, fd, fdType), t);
  }

  lemma SwitchesNone(t: Tables, fd: int, fdType: int, on: bool)
    requires Shaped(t)
    ensures FirstDone(q => Switch(q, fd, fdType, on), t.queues, 3) == EachQueue(q => Switch(q, fd, fdType, on), t)
    ensures !Anywhere(t, fd, fdType) ==> FirstDone(q => Switch(q, fd, fdType, on), t.queues, 3) == t.queues
  {
    hide IndexOf, FirstDone, EachQueue;
    AllDone(q => Switch(q, fd, fdType, on), t);
  }

  /** The first n tables changed by f, the others not yet. */
  ghost function FirstDone(f: FdQueue -> FdQueue, qs: seq<FdQueue>, n: nat): seq<FdQueue>
    requires |qs| == 3
  {
    [if n > 0 then f(qs[0]) else qs[0], if n > 1 then f(qs[1]) else qs[1], if n > 2 then f(qs[2]) else qs[2]]
  }

  ghost predicate FirstHold(qs: seq<FdQueue>, fd: int, fdType: int, n: nat)
    requires |qs| == 3
  {
    (n > 0 && Holds(qs[0], fd, fdType)) || (n > 1 && Holds(qs[1], fd, fdType)) || (n > 2 && Holds(qs[2], fd, fdType))
  }

  ghost function ActiveBetween(qs: seq<FdQueue>, low: int, high: int, ty: int): set<int>
    requires |qs| == 3
  {
    (if low <= 0 < high then ActiveIn(qs[0], ty) else {})
    + (if low <= 1 < high then ActiveIn(qs[1], ty) else {})
    + (if low <= 2 < high then ActiveIn(qs[2], ty) else {})
  }

  lemma OneMoreBetween(qs: seq<FdQueue>, low: int, i: int, ty: int)
    requires |qs| == 3 && low <= i && 0 <= i < 3
    ensures ActiveBetween(qs, low, i + 1, ty) == ActiveBetween(qs, low, i, ty) + ActiveIn(qs[i], ty)
  {
    hide ActiveIn;
  }

  lemma Rebuilt(t: Tables, low: int, ty: int)
    requires Shaped(t) && 0 <= low <= 3
    ensures ActiveBetween(t.queues, low, low, ty) == {}
    ensures ActiveBetween(t.queues, low, 3, ty) == Active(t, low, ty)
  {
    hide ActiveIn;
  }

  lemma NextActive(q: seq<FdEvent>, j: nat)
    requires j < |q|
    ensures forall ty ::
              ActiveIn(FdQueue(q[..j + 1], 0), ty)
              == ActiveIn(FdQueue(q[..j], 0), ty) + (if q[j].active && q[j].fdType == ty then {q[j].fd} else {})
  {
    assert q[..j + 1] == q[..j] + [q[j]];
  }

  lemma SameEntries(q: FdQueue)
    ensures forall ty :: ActiveIn(FdQueue(q.events, 0), ty) == ActiveIn(q, ty)
  {
  }
}
