/** What each call does to every entry of the descriptor tables: the pair's own becomes what the call says, all others
    stay as they are and where they are. */
module FdEntries {
  import opened FdTables

  ghost predicate Present(q: FdQueue, fd: int, fdType: int) {
    exists e :: e in q.events && Matches(e, fd, fdType)
  }

  /** Every entry of r that is not the pair's stands where it stood in q. */
  ghost predicate OthersStay(q: FdQueue, r: FdQueue, fd: int, fdType: int) {
    && |q.events| <= |r.events|
    && (forall k | 0 <= k < |q.events| && !Matches(q.events[k], fd, fdType) :: r.events[k] == q.events[k])
    && forall k | 0 <= k < |r.events| && !Matches(r.events[k], fd, fdType) :: k < |q.events|
  }

  /** The pair's one entry in r is active and calls h; it is the last one if it is new. */
  ghost predicate Registers(q: FdQueue, r: FdQueue, fd: int, fdType: int, h: Handler) {
    && OthersStay(q, r, fd, fdType)
    && |r.events| == |q.events| + (if Present(q, fd, fdType) then 0 else 1)
    && Present(r, fd, fdType)
    && forall e | e in r.events && Matches(e, fd, fdType) :: e.active && e.handler == h
  }

  /** The pair has no entry in r; all others are there, the last one in its place. */
  ghost predicate Removes(q: FdQueue, r: FdQueue, fd: int, fdType: int) {
    && !Present(r, fd, fdType)
    && (forall e | !Matches(e, fd, fdType) :: e in r.events <==> e in q.events)
    && |r.events| == |q.events| - (if Present(q, fd, fdType) then 1 else 0)
    && forall k | 0 <= k < |r.events| && k < |q.events| ::
         r.events[k] == if Matches(q.events[k], fd, fdType) then q.events[|q.events| - 1] else q.events[k]
  }

  /** The pair's entry, if there is one, is switched and calls what it called. */
  ghost predicate Switches(q: FdQueue, r: FdQueue, fd: int, fdType: int, on: bool) {
    && OthersStay(q, r, fd, fdType) && |r.events| == |q.events|
    && forall k | 0 <= k < |q.events| && Matches(q.events[k], fd, fdType) ::
         Matches(r.events[k], fd, fdType) && r.events[k].active == on && r.events[k].handler == q.events[k].handler
  }

  // ---------------------------------------------------------------- one priority

  lemma PresentIff(q: FdQueue, fd: int, fdType: int)
    ensures Present(q, fd, fdType) <==> Holds(q, fd, fdType)
  {
    var i := IndexOf(q.events, fd, fdType);
    if i < |q.events| {
      assert q.events[i] in q.events;
    }
  }

  lemma OneMatch(q: FdQueue, fd: int, fdType: int)
    requires OneEach(q.events)
    ensures forall k | 0 <= k < |q.events| :: Matches(q.events[k], fd, fdType) <==> k == IndexOf(q.events, fd, fdType)
  {
    hide IndexOf;
    var i := IndexOf(q.events, fd, fdType);
    forall k | 0 <= k < |q.events| && Matches(q.events[k], fd, fdType) ensures k == i {
      assert !(k < i);
    }
  }

  lemma EnterRegisters(q: FdQueue, fd: int, fdType: int, h: Handler)
    requires OneEach(q.events)
    ensures Registers(q, Enter(q, fd, fdType, h), fd, fdType, h)
  {
    hide IndexOf, Present, OneEach;
    var i, r := IndexOf(q.events, fd, fdType), Enter(q, fd, fdType, h);
    PresentIff(q, fd, fdType);
    OneMatch(q, fd, fdType);
    assert r.events[i] in r.events;
    FoundPresent(r, r.events[i], fd, fdType);
  }

  lemma FoundPresent(q: FdQueue, e: FdEvent, fd: int, fdType: int)
    requires e in q.events && Matches(e, fd, fdType)
    ensures Present(q, fd, fdType)
  {
  }

  lemma DropRemoves(q: FdQueue, fd: int, fdType: int)
    requires OneEach(q.events)
    ensures Removes(q, Drop(q, fd, fdType), fd, fdType)
  {
    hide IndexOf, OneEach;
    var i, r := IndexOf(q.events, fd, fdType), Drop(q, fd, fdType);
    PresentIff(q, fd, fdType);
    OneMatch(q, fd, fdType);
    if i < |q.events| {
      forall e | !Matches(e, fd, fdType) ensures e in r.events <==> e in q.events {
        if e in q.events {
          var k :| 0 <= k < |q.events| && q.events[k] == e;
          assert r.events[if k == |q.events| - 1 then i else k] == e;
        }
      }
    }
  }

  lemma SwitchSwitches(q: FdQueue, fd: int, fdType: int, on: bool)
    requires OneEach(q.events)
    ensures Switches(q, Switch(q, fd, fdType, on), fd, fdType, on)
  {
    hide IndexOf, OneEach;
    OneMatch(q, fd, fdType);
  }

  // ---------------------------------------------------------------- the calls

  /** The mask of kind ty is as before but for the bit of fd, if the kind is the pair's. */
  ghost predicate OtherBitsStay(t: Tables, r: Tables, fd: int, fdType: int)
    requires Shaped(t) && Shaped(r)
  {
    && r.threshold == t.threshold
    && forall ty, x | 0 <= ty < NUM_FDTYPES && !(ty == fdType && x == fd) :: x in r.mask[ty] <==> x in t.mask[ty]
  }

  /** E_attach_fd: the pair is registered at this priority with just this handler, and everything else stays. The
      call fails for values out of range and for a new pair in a full table, and says whether the pair was there. */
  lemma AttachLaw(t: Tables, fd: int, fdType: int, h: Handler, priority: int)
    requires Inv(t) && !Attach(t, fd, fdType, h, priority).Behind?
    ensures var a := Attach(t, fd, fdType, h, priority);
      var bad := BadPriority(priority) || BadType(fdType) || BadFd(fd);
      && Shaped(a.t) && (bad || 0 <= priority < 3)
      && a.code == (if bad then -1
                    else if Present(t.queues[priority], fd, fdType) then 1
                    else if |t.queues[priority].events| == MAX_FD_EVENTS then -1
                    else 0)
      && (a.code == -1 ==> a.t == t)
      && (a.code != -1 ==>
            && Registers(t.queues[priority], a.t.queues[priority], fd, fdType, h)
            && (forall i | 0 <= i < 3 && i != priority :: a.t.queues[i] == t.queues[i])
            && OtherBitsStay(t, a.t, fd, fdType)
            && (fdType < NUM_FDTYPES ==>
                  (fd in a.t.mask[fdType]
                   <==> fd in t.mask[fdType] || (a.code == 0 && t.threshold <= priority))))
  {
    hide Holds, Present, Registers, QueueInv, MasksMean, Enter;
    if 0 <= priority < 3 {
      PresentIff(t.queues[priority], fd, fdType);
      UniqueIn(t, priority);
      EnterRegisters(t.queues[priority], fd, fdType, h);
    }
  }

  lemma UniqueIn(t: Tables, i: int)
    requires Inv(t) && 0 <= i < 3
    ensures OneEach(t.queues[i].events)
  {
  }

  /** E_detach_fd: the pair is gone at every priority, and everything else stays. The call fails if no priority has
      it. */
  lemma DetachLaw(t: Tables, fd: int, fdType: int)
    requires Inv(t) && !Detach(t, fd, fdType).Behind?
    ensures var a := Detach(t, fd, fdType);
      && Shaped(a.t)
      && a.code == (if !BadType(fdType) && exists i :: 0 <= i < 3 && Present(t.queues[i], fd, fdType) then 0 else -1)
      && (a.code == -1 ==> a.t == t)
      && (a.code == 0 ==>
            && (forall i | 0 <= i < 3 :: Removes(t.queues[i], a.t.queues[i], fd, fdType))
            && OtherBitsStay(t, a.t, fd, fdType) && fdType < NUM_FDTYPES && fd !in a.t.mask[fdType])
  {
    hide Holds, Present, Removes, QueueInv, MasksMean, Drop;
    SomewhereIff(t, fd, fdType);
    forall i | 0 <= i < 3 ensures Removes(t.queues[i], Drop(t.queues[i], fd, fdType), fd, fdType) {
      UniqueIn(t, i);
      DropRemoves(t.queues[i], fd, fdType);
    }
  }

  lemma SomewhereIff(t: Tables, fd: int, fdType: int)
    requires Shaped(t)
    ensures Anywhere(t, fd, fdType) <==> exists i :: 0 <= i < 3 && Present(t.queues[i], fd, fdType)
  {
    hide Holds, Present;
    PresentIff(t.queues[0], fd, fdType);
    PresentIff(t.queues[1], fd, fdType);
    PresentIff(t.queues[2], fd, fdType);
  }

  /** E_deactivate_fd: the pair is inactive at every priority that has it, with the handler it had. */
  lemma DeactivateLaw(t: Tables, fd: int, fdType: int)
    requires Inv(t) && !Deactivate(t, fd, fdType).Behind?
    ensures var a := Deactivate(t, fd, fdType);
      && Shaped(a.t)
      && a.code == (if !BadType(fdType) && exists i :: 0 <= i < 3 && Present(t.queues[i], fd, fdType) then 0 else -1)
      && (a.code == -1 ==> a.t == t)
      && (a.code == 0 ==>
            && (forall i | 0 <= i < 3 :: Switches(t.queues[i], a.t.queues[i], fd, fdType, false))
            && OtherBitsStay(t, a.t, fd, fdType) && fdType < NUM_FDTYPES && fd !in a.t.mask[fdType])
  {
    hide Holds, Present, Switches, QueueInv, MasksMean, Switch;
    SomewhereIff(t, fd, fdType);
    SwitchedAll(t, fd, fdType, false);
  }

  lemma SwitchedAll(t: Tables, fd: int, fdType: int, on: bool)
    requires Inv(t)
    ensures forall i | 0 <= i < 3 :: Switches(t.queues[i], Switch(t.queues[i], fd, fdType, on), fd, fdType, on)
  {
    hide Switches, Switch, QueueInv, MasksMean;
    forall i | 0 <= i < 3 ensures Switches(t.queues[i], Switch(t.queues[i], fd, fdType, on), fd, fdType, on) {
      UniqueIn(t, i);
      SwitchSwitches(t.queues[i], fd, fdType, on);
    }
  }

  /** E_activate_fd: the pair is active at every priority that has it, and waited for if one of these is at or above
      the threshold. */
  lemma ActivateLaw(t: Tables, fd: int, fdType: int)
    requires Inv(t) && !Activate(t, fd, fdType).Behind?
    ensures var a := Activate(t, fd, fdType);
      && Shaped(a.t)
      && a.code == (if !BadType(fdType) && exists i :: 0 <= i < 3 && Present(t.queues[i], fd, fdType) then 0 else -1)
      && (a.code == -1 ==> a.t == t)
      && (a.code == 0 ==>
            && (forall i | 0 <= i < 3 :: Switches(t.queues[i], a.t.queues[i], fd, fdType, true))
            && OtherBitsStay(t, a.t, fd, fdType)
            && (fdType < NUM_FDTYPES ==>
                  (fd in a.t.mask[fdType]
                   <==> fd in t.mask[fdType]
                        || exists i :: t.threshold <= i < 3 && 0 <= i && Present(t.queues[i], fd, fdType))))
  {
    hide Holds, Present, Switches, QueueInv, MasksMean, Switch;
    SomewhereIff(t, fd, fdType);
    SwitchedAll(t, fd, fdType, true);
    PresentIff(t.queues[0], fd, fdType);
    PresentIff(t.queues[1], fd, fdType);
    PresentIff(t.queues[2], fd, fdType);
  }

  /** E_set_active_threshold leaves every entry alone; a bit is set afterwards if and only if a priority at or above
      the threshold has an active entry for it. */
  lemma ThresholdLaw(t: Tables, priority: int)
    requires Inv(t) && !SetThreshold(t, priority).Behind?
    ensures var a := SetThreshold(t, priority);
      && Shaped(a.t) && a.t.queues == t.queues
      && a.code == (if BadPriority(priority) then -1 else priority)
      && (BadPriority(priority) || priority == t.threshold ==> a.t == t)
      && (!BadPriority(priority) && priority != t.threshold ==>
            && a.t.threshold == priority
            && forall ty, fd | 0 <= ty < NUM_FDTYPES ::
                 fd in a.t.mask[ty]
                 <==> exists i, e :: priority <= i < 3 && 0 <= i && e in t.queues[i].events && e.active
                                     && Matches(e, fd, ty))
  {
    hide QueueInv, MasksMean, ActiveIn, BitsFrom;
    var a := SetThreshold(t, priority);
    if !BadPriority(priority) && priority != t.threshold {
      forall ty, fd | 0 <= ty < NUM_FDTYPES
        ensures fd in a.t.mask[ty]
             <==> exists i, e :: priority <= i < 3 && 0 <= i && e in t.queues[i].events && e.active
                                 && Matches(e, fd, ty)
      {
        ActiveAt(t.queues[0], fd, ty);
        ActiveAt(t.queues[1], fd, ty);
        ActiveAt(t.queues[2], fd, ty);
      }
    }
  }

  lemma ActiveAt(q: FdQueue, fd: int, ty: int)
    ensures fd in ActiveIn(q, ty) <==> exists e :: e in q.events && e.active && Matches(e, fd, ty)
  {
  }
}
