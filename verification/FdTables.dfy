/** The tables of file descriptors that the event loop waits for: one table for each priority, and for
    each kind of readiness the mask given to `select`. */
module FdTables {

  const NUM_PRIORITY := 3
  const NUM_FDTYPES := 3
  const MAX_FD_EVENTS := 2000
  const FD_SETSIZE := 1024
  const LOW_PRIORITY := 0

  datatype Handler = Handler(func: int, code: int, data: int)

  datatype FdEvent = FdEvent(fd: int, fdType: int, handler: Handler, active: bool)

  /** The entries of one priority, and the stored count of active ones. */
  datatype FdQueue = FdQueue(events: seq<FdEvent>, numActive: int)

  datatype Tables = Tables(queues: seq<FdQueue>, mask: seq<set<int>>, threshold: int)

  // ---------------------------------------------------------------- one priority

  predicate Matches(e: FdEvent, fd: int, fdType: int) {
    e.fd == fd && e.fdType == fdType
  }

  /** The first entry for the pair, or the number of entries. */
  function IndexOf(q: seq<FdEvent>, fd: int, fdType: int): (i: nat)
    ensures i <= |q| && (i < |q| ==> Matches(q[i], fd, fdType))
    ensures forall j | 0 <= j < i :: !Matches(q[j], fd, fdType)
  {
    if q == [] || Matches(q[0], fd, fdType) then 0 else 1 + IndexOf(q[1..], fd, fdType)
  }

  predicate Holds(q: FdQueue, fd: int, fdType: int) {
    IndexOf(q.events, fd, fdType) < |q.events|
  }

  function One(b: bool): int {
    if b then 1 else 0
  }

  /** An existing entry is given the new handler and made active; a new one goes to the end. */
  function Enter(q: FdQueue, fd: int, fdType: int, h: Handler): FdQueue {
    var i := IndexOf(q.events, fd, fdType);
    if i < |q.events| then
      FdQueue(q.events[i := FdEvent(fd, fdType, h, true)], q.numActive + One(!q.events[i].active))
    else FdQueue(q.events + [FdEvent(fd, fdType, h, true)], q.numActive + 1)
  }

  /** The last entry takes the place of the one removed. */
  function Drop(q: FdQueue, fd: int, fdType: int): FdQueue {
    var i, n := IndexOf(q.events, fd, fdType), |q.events|;
    if i == n then q else FdQueue(q.events[i := q.events[n - 1]][..n - 1], q.numActive - One(q.events[i].active))
  }

  function Switch(q: FdQueue, fd: int, fdType: int, on: bool): FdQueue {
    var i := IndexOf(q.events, fd, fdType);
    if i == |q.events| then q
    else FdQueue(q.events[i := q.events[i].(active := on)], q.numActive + One(on) - One(q.events[i].active))
  }

  // ---------------------------------------------------------------- the tables

  predicate Shaped(t: Tables) {
    |t.queues| == NUM_PRIORITY && |t.mask| == NUM_FDTYPES
  }

  function Init(): Tables {
    Tables(seq(3, i => FdQueue([], 0)), seq(3, i => {}), LOW_PRIORITY)
  }

  /** What a call leaves and returns; or it would write behind the tables. */
  datatype Answer = Answer(t: Tables, code: int) | Behind

  predicate BadPriority(priority: int) {
    priority < 0 || priority > NUM_PRIORITY
  }

  predicate BadType(fdType: int) {
    fdType < 0 || fdType > NUM_FDTYPES
  }

  predicate BadFd(fd: int) {
    fd < 0 || fd > FD_SETSIZE
  }

  /** The masks have a bit for the pair. The guards let one value too many of each kind through. */
  predicate HasBit(fd: int, fdType: int) {
    0 <= fd < FD_SETSIZE && 0 <= fdType < NUM_FDTYPES
  }

  function Attach(t: Tables, fd: int, fdType: int, h: Handler, priority: int): Answer
    requires Shaped(t)
  {
    if BadPriority(priority) || BadType(fdType) || BadFd(fd) then Answer(t, -1)
    else if priority == NUM_PRIORITY then Behind
    else
      var q := t.queues[priority];
      if Holds(q, fd, fdType) then Answer(t.(queues := t.queues[priority := Enter(q, fd, fdType, h)]), 1)
      else if |q.events| == MAX_FD_EVENTS then Answer(t, -1)
      else if t.threshold <= priority && !HasBit(fd, fdType) then Behind
      else
        Answer(t.(queues := t.queues[priority := Enter(q, fd, fdType, h)],
                  mask := if t.threshold <= priority then t.mask[fdType := t.mask[fdType] + {fd}] else t.mask), 0)
  }

  predicate Anywhere(t: Tables, fd: int, fdType: int)
    requires Shaped(t)
  {
    Holds(t.queues[0], fd, fdType) || Holds(t.queues[1], fd, fdType) || Holds(t.queues[2], fd, fdType)
  }

  function EachQueue(f: FdQueue -> FdQueue, t: Tables): (r: seq<FdQueue>)
    requires Shaped(t)
    ensures |r| == 3 && forall i | 0 <= i < 3 :: r[i] == f(t.queues[i])
  {
    [f(t.queues[0]), f(t.queues[1]), f(t.queues[2])]
  }

  function Detach(t: Tables, fd: int, fdType: int): Answer
    requires Shaped(t)
  {
    if BadType(fdType) || !Anywhere(t, fd, fdType) then Answer(t, -1)
    else if !HasBit(fd, fdType) then Behind
    else
      Answer(t.(queues := EachQueue(q => Drop(q, fd, fdType), t), mask := t.mask[fdType := t.mask[fdType] - {fd}]), 0)
  }

  function Deactivate(t: Tables, fd: int, fdType: int): Answer
    requires Shaped(t)
  {
    if BadType(fdType) || !Anywhere(t, fd, fdType) then Answer(t, -1)
    else if !HasBit(fd, fdType) then Behind
    else
      Answer(t.(queues := EachQueue(q => Switch(q, fd, fdType, false), t),
                mask := t.mask[fdType := t.mask[fdType] - {fd}]), 0)
  }

  /** Some priority at or above the threshold has the pair. */
  predicate Watched(t: Tables, fd: int, fdType: int)
    requires Shaped(t)
  {
    || (0 >= t.threshold && Holds(t.queues[0], fd, fdType))
    || (1 >= t.threshold && Holds(t.queues[1], fd, fdType))
    || (2 >= t.threshold && Holds(t.queues[2], fd, fdType))
  }

  function Activate(t: Tables, fd: int, fdType: int): Answer
    requires Shaped(t)
  {
    if BadType(fdType) || !Anywhere(t, fd, fdType) then Answer(t, -1)
    else if Watched(t, fd, fdType) && !HasBit(fd, fdType) then Behind
    else
      Answer(t.(queues := EachQueue(q => Switch(q, fd, fdType, true), t),
                mask := if Watched(t, fd, fdType) then t.mask[fdType := t.mask[fdType] + {fd}] else t.mask), 0)
  }

  /** The descriptors of kind fdType with an active entry. */
  function ActiveIn(q: FdQueue, fdType: int): set<int> {
    set e | e in q.events && e.fdType == fdType && e.active :: e.fd
  }

  /** Those with one at or above `priority`. */
  function Active(t: Tables, priority: int, fdType: int): set<int>
    requires Shaped(t)
  {
    From(priority, ActiveIn(t.queues[0], fdType), ActiveIn(t.queues[1], fdType), ActiveIn(t.queues[2], fdType))
  }

  /** The union of the sets of the priorities from `priority` up. */
  function From(priority: int, low: set<int>, medium: set<int>, high: set<int>): set<int> {
    (if 0 >= priority then low else {}) + (if 1 >= priority then medium else {}) + (if 2 >= priority then high else {})
  }

  /** The active entries of one priority have bits. */
  predicate ActiveHaveBits(q: FdQueue) {
    forall e | e in q.events && e.active :: HasBit(e.fd, e.fdType)
  }

  predicate BitsFrom(t: Tables, priority: int)
    requires Shaped(t)
  {
    && (0 >= priority ==> ActiveHaveBits(t.queues[0]))
    && (1 >= priority ==> ActiveHaveBits(t.queues[1]))
    && (2 >= priority ==> ActiveHaveBits(t.queues[2]))
  }

  function SetThreshold(t: Tables, priority: int): Answer
    requires Shaped(t)
  {
    if BadPriority(priority) then Answer(t, -1)
    else if priority == t.threshold then Answer(t, priority)
    else if !BitsFrom(t, priority) then Behind
    else
      Answer(t.(mask := [Active(t, priority, 0), Active(t, priority, 1), Active(t, priority, 2)],
                threshold := priority), priority)
  }

  // ---------------------------------------------------------------- the invariant

  function CountActive(q: seq<FdEvent>): nat {
    if q == [] then 0 else One(q[0].active) + CountActive(q[1..])
  }

  ghost predicate OneEach(q: seq<FdEvent>) {
    forall i, j | 0 <= i < j < |q| :: !(q[i].fd == q[j].fd && q[i].fdType == q[j].fdType)
  }

  ghost predicate QueueInv(q: FdQueue) {
    && q.numActive == CountActive(q.events) && OneEach(q.events) && |q.events| <= MAX_FD_EVENTS
    && forall e | e in q.events :: !BadFd(e.fd) && !BadType(e.fdType)
  }

  /** A bit in a mask stands for an active entry at or above the threshold. */
  ghost predicate MasksMean(t: Tables)
    requires Shaped(t)
  {
    forall ty | 0 <= ty < 3 :: t.mask[ty] <= Active(t, t.threshold, ty)
  }

  /** Every active entry at or above the threshold has its bit. */
  ghost predicate MasksCover(t: Tables)
    requires Shaped(t)
  {
    forall ty | 0 <= ty < 3 :: Active(t, t.threshold, ty) <= t.mask[ty]
  }

  ghost predicate Inv(t: Tables) {
    Shaped(t) && QueueInv(t.queues[0]) && QueueInv(t.queues[1]) && QueueInv(t.queues[2]) && MasksMean(t)
  }

  lemma StartInv()
    ensures Inv(Init()) && MasksCover(Init())
  {
  }

  // ---------------------------------------------------------------- one priority

  lemma {:induction false} CountConcat(a: seq<FdEvent>, b: seq<FdEvent>)
    ensures CountActive(a + b) == CountActive(a) + CountActive(b)
  {
    if a == [] {
      assert a + b == b;
    } else {
      assert (a + b)[1..] == a[1..] + b;
      CountConcat(a[1..], b);
    }
  }

  lemma CountSplit(q: seq<FdEvent>, i: nat)
    requires i < |q|
    ensures CountActive(q) == CountActive(q[..i]) + One(q[i].active) + CountActive(q[i + 1..])
  {
    CountConcat(q[..i], q[i..]);
    assert q == q[..i] + q[i..] && q[i..][0] == q[i] && q[i..][1..] == q[i + 1..];
  }

  lemma CountUpdate(q: seq<FdEvent>, i: nat, e: FdEvent)
    requires i < |q|
    ensures CountActive(q[i := e]) == CountActive(q) - One(q[i].active) + One(e.active)
  {
    CountSplit(q, i);
    CountSplit(q[i := e], i);
    assert q[i := e][..i] == q[..i] && q[i := e][i + 1..] == q[i + 1..];
  }

  lemma CountSingle(e: FdEvent)
    ensures CountActive([e]) == One(e.active)
  {
  }

  lemma CountLast(q: seq<FdEvent>)
    requires q != []
    ensures CountActive(q[..|q| - 1]) == CountActive(q) - One(q[|q| - 1].active)
  {
    CountSplit(q, |q| - 1);
  }

  ghost function Only(fd: int, here: bool): set<int> {
    if here then {fd} else {}
  }

  /** Changing an entry for the same pair changes only that descriptor's part. */
  lemma UpdateActive(q: FdQueue, i: nat, e: FdEvent, n: int, ty: int)
    requires OneEach(q.events) && i < |q.events| && Matches(e, q.events[i].fd, q.events[i].fdType)
    ensures ActiveIn(FdQueue(q.events[i := e], n), ty)
         == ActiveIn(q, ty) - Only(e.fd, ty == e.fdType) + Only(e.fd, ty == e.fdType && e.active)
  {
    var r := q.events[i := e];
    forall x ensures x in ActiveIn(FdQueue(r, n), ty) <==>
      x in ActiveIn(q, ty) - Only(e.fd, ty == e.fdType) + Only(e.fd, ty == e.fdType && e.active)
    {
      if x in ActiveIn(FdQueue(r, n), ty) {
        var k :| 0 <= k < |r| && r[k].fd == x && r[k].fdType == ty && r[k].active;
        if k != i {
          assert r[k] == q.events[k] && q.events[k] in q.events;
        }
      }
      if x in ActiveIn(q, ty) && !(x == e.fd && ty == e.fdType) {
        var k :| 0 <= k < |r| && q.events[k].fd == x && q.events[k].fdType == ty && q.events[k].active;
        assert r[k] in r;
      }
      assert r[i] in r;
    }
  }

  lemma NewActive(q: FdQueue, e: FdEvent, n: int, ty: int)
    requires e.active
    ensures ActiveIn(FdQueue(q.events + [e], n), ty) == ActiveIn(q, ty) + Only(e.fd, ty == e.fdType)
  {
    var r := q.events + [e];
    forall x | x in ActiveIn(q, ty) + Only(e.fd, ty == e.fdType) ensures x in ActiveIn(FdQueue(r, n), ty) {
      assert r[|q.events|] in r;
      if x in ActiveIn(q, ty) {
        var y :| y in q.events && y.fd == x && y.fdType == ty && y.active;
        assert y in r;
      }
    }
  }

  lemma EnterKeeps(q: FdQueue, fd: int, fdType: int, h: Handler, ty: int)
    requires QueueInv(q) && !BadFd(fd) && !BadType(fdType) && (Holds(q, fd, fdType) || |q.events| < MAX_FD_EVENTS)
    ensures QueueInv(Enter(q, fd, fdType, h))
    ensures ActiveIn(Enter(q, fd, fdType, h), ty) == ActiveIn(q, ty) + Only(fd, ty == fdType)
  {
    hide ActiveIn, CountActive;
    var i, e := IndexOf(q.events, fd, fdType), FdEvent(fd, fdType, h, true);
    if i < |q.events| {
      CountUpdate(q.events, i, e);
      UpdateActive(q, i, e, q.numActive + One(!q.events[i].active), ty);
    } else {
      CountConcat(q.events, [e]);
      CountSingle(e);
      NewActive(q, e, q.numActive + 1, ty);
    }
  }

  lemma SwitchKeeps(q: FdQueue, fd: int, fdType: int, on: bool, ty: int)
    requires QueueInv(q)
    ensures QueueInv(Switch(q, fd, fdType, on))
    ensures ActiveIn(Switch(q, fd, fdType, on), ty) ==
      if on then ActiveIn(q, ty) + Only(fd, ty == fdType && Holds(q, fd, fdType))
      else ActiveIn(q, ty) - Only(fd, ty == fdType)
  {
    var i := IndexOf(q.events, fd, fdType);
    if i < |q.events| {
      hide ActiveIn, CountActive;
      var e := q.events[i].(active := on);
      CountUpdate(q.events, i, e);
      UpdateActive(q, i, e, q.numActive + One(on) - One(q.events[i].active), ty);
    } else {
      AbsentActive(q, fd, fdType);
    }
  }

  lemma AbsentActive(q: FdQueue, fd: int, fdType: int)
    requires !Holds(q, fd, fdType)
    ensures fd !in ActiveIn(q, fdType)
  {
    assert forall k | 0 <= k < |q.events| :: !Matches(q.events[k], fd, fdType);
  }

  lemma DropActive(q: seq<FdEvent>, i: nat, ty: int, n: int, m: int)
    requires OneEach(q) && i < |q|
    ensures var r := q[i := q[|q| - 1]][..|q| - 1];
      ActiveIn(FdQueue(r, n), ty) == ActiveIn(FdQueue(q, m), ty) - Only(q[i].fd, ty == q[i].fdType)
  {
    var last := |q| - 1;
    var r := q[i := q[last]][..last];
    forall x
      ensures x in ActiveIn(FdQueue(r, n), ty) <==> x in ActiveIn(FdQueue(q, m), ty) - Only(q[i].fd, ty == q[i].fdType)
    {
      if x in ActiveIn(FdQueue(r, n), ty) {
        var k :| 0 <= k < |r| && r[k].fd == x && r[k].fdType == ty && r[k].active;
        assert r[k] == q[if k == i then last else k];
      }
      if x in ActiveIn(FdQueue(q, m), ty) && !(x == q[i].fd && ty == q[i].fdType) {
        var k :| 0 <= k < |q| && q[k].fd == x && q[k].fdType == ty && q[k].active;
        assert r[if k == last then i else k] in r;
      }
    }
  }

  lemma DropKeeps(q: FdQueue, fd: int, fdType: int, ty: int)
    requires QueueInv(q)
    ensures QueueInv(Drop(q, fd, fdType)) && !Holds(Drop(q, fd, fdType), fd, fdType)
    ensures ActiveIn(Drop(q, fd, fdType), ty) == ActiveIn(q, ty) - Only(fd, ty == fdType)
  {
    var i, n := IndexOf(q.events, fd, fdType), |q.events|;
    if i == n {
      AbsentActive(q, fd, fdType);
    } else {
      hide ActiveIn, CountActive;
      var r := q.events[i := q.events[n - 1]];
      CountUpdate(q.events, i, q.events[n - 1]);
      CountLast(r);
      DropActive(q.events, i, ty, q.numActive - One(q.events[i].active), q.numActive);
      DroppedUnique(q.events, i);
    }
  }

  lemma DroppedUnique(q: seq<FdEvent>, i: nat)
    requires OneEach(q) && i < |q|
    ensures var r := q[i := q[|q| - 1]][..|q| - 1];
      OneEach(r) && (forall e | e in r :: e in q) && forall k | 0 <= k < |r| :: !Matches(r[k], q[i].fd, q[i].fdType)
  {
  }

  // ---------------------------------------------------------------- the tables

  lemma MasksLose(t: Tables, r: Tables, fd: int, fdType: int)
    requires Shaped(t) && Shaped(r) && MasksMean(t) && r.threshold == t.threshold && 0 <= fdType < NUM_FDTYPES
    requires forall ty | 0 <= ty < 3 ::
      Active(r, t.threshold, ty) == Active(t, t.threshold, ty) - Only(fd, ty == fdType)
    requires r.mask == t.mask[fdType := t.mask[fdType] - {fd}]
    ensures MasksMean(r) && (MasksCover(t) ==> MasksCover(r))
  {
    hide Active;
  }

  lemma MasksGain(t: Tables, r: Tables, fd: int, fdType: int, here: bool)
    requires Shaped(t) && Shaped(r) && MasksMean(t) && r.threshold == t.threshold
    requires here ==> 0 <= fdType < NUM_FDTYPES
    requires forall ty | 0 <= ty < 3 ::
      Active(r, t.threshold, ty) == Active(t, t.threshold, ty) + Only(fd, ty == fdType && here)
    requires r.mask == if here then t.mask[fdType := t.mask[fdType] + {fd}] else t.mask
    ensures MasksMean(r) && (MasksCover(t) ==> MasksCover(r))
  {
    hide Active;
  }

  lemma FromMinus(p: int, a: set<int>, b: set<int>, c: set<int>, x: set<int>)
    ensures From(p, a - x, b - x, c - x) == From(p, a, b, c) - x
  {
  }

  lemma FromPlus(p: int, a: set<int>, b: set<int>, c: set<int>, x: set<int>, y: set<int>, z: set<int>)
    ensures From(p, a + x, b + y, c + z) == From(p, a, b, c) + From(p, x, y, z)
  {
  }

  lemma EnterActive(t: Tables, fd: int, fdType: int, h: Handler, priority: int, ty: int)
    requires Shaped(t) && 0 <= priority < 3 && !BadFd(fd) && !BadType(fdType) && QueueInv(t.queues[priority])
    requires Holds(t.queues[priority], fd, fdType) || |t.queues[priority].events| < MAX_FD_EVENTS
    ensures var r := t.(queues := t.queues[priority := Enter(t.queues[priority], fd, fdType, h)]);
      && Active(r, t.threshold, ty) == Active(t, t.threshold, ty) + Only(fd, ty == fdType && t.threshold <= priority)
      && QueueInv(r.queues[priority])
  {
    hide QueueInv, Enter, ActiveIn, Holds;
    EnterKeeps(t.queues[priority], fd, fdType, h, ty);
  }

  /** The pair is registered already, would be watched, and has no bit: it was switched off. */
  predicate Revived(t: Tables, fd: int, fdType: int, priority: int)
    requires Shaped(t)
  {
    && !BadFd(fd) && 0 <= fdType < NUM_FDTYPES && 0 <= priority < NUM_PRIORITY
    && Holds(t.queues[priority], fd, fdType) && t.threshold <= priority && fd !in t.mask[fdType]
  }

  /** A registration keeps the invariant; the masks still cover every active entry unless an entry that
      was switched off is registered again at or above the threshold: its bit stays clear. */
  lemma AttachKeeps(t: Tables, fd: int, fdType: int, h: Handler, priority: int)
    requires Inv(t) && !Attach(t, fd, fdType, h, priority).Behind?
    ensures var a := Attach(t, fd, fdType, h, priority);
      Inv(a.t) && (MasksCover(t) ==> (MasksCover(a.t) <==> !Revived(t, fd, fdType, priority)))
  {
    hide QueueInv, Enter, Active, ActiveIn, Holds;
    var a := Attach(t, fd, fdType, h, priority);
    if a.code != -1 {
      var r := t.(queues := t.queues[priority := Enter(t.queues[priority], fd, fdType, h)]);
      forall ty | 0 <= ty < 3
        ensures Active(a.t, t.threshold, ty)
             == Active(t, t.threshold, ty) + Only(fd, ty == fdType && t.threshold <= priority)
      {
        AttachedInv(t, priority, fd, fdType);
        EnterActive(t, fd, fdType, h, priority, ty);
        SameQueues(a.t, r, t.threshold, ty);
      }
      AttachedInv(t, priority, fd, fdType);
      EnterActive(t, fd, fdType, h, priority, fdType);
      if a.code == 0 {
        MasksGain(t, a.t, fd, fdType, t.threshold <= priority);
        NotRevived(t, fd, fdType, priority);
      } else {
        RevivedMasks(t, a.t, fd, fdType, priority);
      }
    } else {
      NotRevived(t, fd, fdType, priority);
    }
  }

  lemma NotRevived(t: Tables, fd: int, fdType: int, priority: int)
    requires Shaped(t) && (0 <= priority < 3 && !BadFd(fd) && !BadType(fdType) ==>
                           !Holds(t.queues[priority], fd, fdType))
    ensures !Revived(t, fd, fdType, priority)
  {
  }

  lemma AttachedInv(t: Tables, priority: int, fd: int, fdType: int)
    requires Inv(t) && 0 <= priority < 3
    ensures QueueInv(t.queues[priority]) && |t.queues[priority].events| <= MAX_FD_EVENTS
  {
  }

  lemma SameQueues(a: Tables, b: Tables, priority: int, ty: int)
    requires Shaped(a) && Shaped(b) && a.queues == b.queues
    ensures Active(a, priority, ty) == Active(b, priority, ty)
  {
  }

  lemma RevivedMasks(t: Tables, r: Tables, fd: int, fdType: int, priority: int)
    requires Shaped(t) && Shaped(r) && MasksMean(t) && r.threshold == t.threshold && r.mask == t.mask
    requires !BadType(fdType)
    requires forall ty | 0 <= ty < 3 ::
      Active(r, t.threshold, ty) == Active(t, t.threshold, ty) + Only(fd, ty == fdType && t.threshold <= priority)
    ensures MasksMean(r)
    ensures MasksCover(t) ==>
      (MasksCover(r) <==> !(t.threshold <= priority && fdType < NUM_FDTYPES && fd !in t.mask[fdType]))
  {
    hide Active;
    if t.threshold <= priority && fdType < NUM_FDTYPES {
      assert fd in Active(r, t.threshold, fdType);
    }
  }

  lemma DropAll(t: Tables, fd: int, fdType: int, ty: int)
    requires Inv(t)
    ensures var r := t.(queues := EachQueue(q => Drop(q, fd, fdType), t));
      && Active(r, t.threshold, ty) == Active(t, t.threshold, ty) - Only(fd, ty == fdType)
      && (forall i | 0 <= i < 3 :: QueueInv(r.queues[i]) && !Holds(r.queues[i], fd, fdType))
  {
    hide QueueInv, Drop, ActiveIn, Holds, From, Only;
    DropKeeps(t.queues[0], fd, fdType, ty);
    DropKeeps(t.queues[1], fd, fdType, ty);
    DropKeeps(t.queues[2], fd, fdType, ty);
    FromMinus(t.threshold, ActiveIn(t.queues[0], ty), ActiveIn(t.queues[1], ty), ActiveIn(t.queues[2], ty),
              Only(fd, ty == fdType));
  }

  lemma DetachKeeps(t: Tables, fd: int, fdType: int)
    requires Inv(t) && !Detach(t, fd, fdType).Behind?
    ensures var a := Detach(t, fd, fdType);
      Inv(a.t) && (MasksCover(t) ==> MasksCover(a.t)) && (a.code == 0 ==> !Anywhere(a.t, fd, fdType))
  {
    hide QueueInv, Drop, Active, ActiveIn, Holds;
    var a := Detach(t, fd, fdType);
    if a.code == 0 {
      var r := t.(queues := EachQueue(q => Drop(q, fd, fdType), t));
      forall ty | 0 <= ty < 3
        ensures Active(a.t, t.threshold, ty) == Active(t, t.threshold, ty) - Only(fd, ty == fdType)
      {
        DropAll(t, fd, fdType, ty);
        SameQueues(a.t, r, t.threshold, ty);
      }
      DropAll(t, fd, fdType, fdType);
      MasksLose(t, a.t, fd, fdType);
    }
  }

  lemma WatchedIs(t: Tables, fd: int, fdType: int, ty: int)
    requires Shaped(t)
    ensures Only(fd, ty == fdType && Watched(t, fd, fdType))
         == From(t.threshold, Only(fd, ty == fdType && Holds(t.queues[0], fd, fdType)),
                 Only(fd, ty == fdType && Holds(t.queues[1], fd, fdType)),
                 Only(fd, ty == fdType && Holds(t.queues[2], fd, fdType)))
  {
    hide Holds;
  }

  lemma SwitchAll(t: Tables, fd: int, fdType: int, on: bool, ty: int)
    requires Inv(t)
    ensures var r := t.(queues := EachQueue(q => Switch(q, fd, fdType, on), t));
      && Active(r, t.threshold, ty) ==
         (if on then Active(t, t.threshold, ty) + Only(fd, ty == fdType && Watched(t, fd, fdType))
          else Active(t, t.threshold, ty) - Only(fd, ty == fdType))
      && (forall i | 0 <= i < 3 :: QueueInv(r.queues[i]))
  {
    hide QueueInv, Switch, ActiveIn, Holds, From, Only, Watched;
    SwitchKeeps(t.queues[0], fd, fdType, on, ty);
    SwitchKeeps(t.queues[1], fd, fdType, on, ty);
    SwitchKeeps(t.queues[2], fd, fdType, on, ty);
    var a, b, c := ActiveIn(t.queues[0], ty), ActiveIn(t.queues[1], ty), ActiveIn(t.queues[2], ty);
    FromMinus(t.threshold, a, b, c, Only(fd, ty == fdType));
    FromPlus(t.threshold, a, b, c, Only(fd, ty == fdType && Holds(t.queues[0], fd, fdType)),
             Only(fd, ty == fdType && Holds(t.queues[1], fd, fdType)),
             Only(fd, ty == fdType && Holds(t.queues[2], fd, fdType)));
    WatchedIs(t, fd, fdType, ty);
  }

  lemma DeactivateKeeps(t: Tables, fd: int, fdType: int)
    requires Inv(t) && !Deactivate(t, fd, fdType).Behind?
    ensures var a := Deactivate(t, fd, fdType); Inv(a.t) && (MasksCover(t) ==> MasksCover(a.t))
  {
    hide QueueInv, Switch, Active, ActiveIn, Holds, Watched;
    var a := Deactivate(t, fd, fdType);
    if a.code == 0 {
      var r := t.(queues := EachQueue(q => Switch(q, fd, fdType, false), t));
      forall ty | 0 <= ty < 3
        ensures Active(a.t, t.threshold, ty) == Active(t, t.threshold, ty) - Only(fd, ty == fdType)
      {
        SwitchAll(t, fd, fdType, false, ty);
        SameQueues(a.t, r, t.threshold, ty);
      }
      SwitchAll(t, fd, fdType, false, fdType);
      MasksLose(t, a.t, fd, fdType);
    }
  }

  lemma ActivateKeeps(t: Tables, fd: int, fdType: int)
    requires Inv(t) && !Activate(t, fd, fdType).Behind?
    ensures var a := Activate(t, fd, fdType); Inv(a.t) && (MasksCover(t) ==> MasksCover(a.t))
  {
    hide QueueInv, Switch, Active, ActiveIn, Holds, Watched;
    var a := Activate(t, fd, fdType);
    if a.code == 0 {
      var r := t.(queues := EachQueue(q => Switch(q, fd, fdType, true), t));
      forall ty | 0 <= ty < 3
        ensures Active(a.t, t.threshold, ty) == Active(t, t.threshold, ty)
          + Only(fd, ty == fdType && Watched(t, fd, fdType))
      {
        SwitchAll(t, fd, fdType, true, ty);
        SameQueues(a.t, r, t.threshold, ty);
      }
      SwitchAll(t, fd, fdType, true, fdType);
      MasksGain(t, a.t, fd, fdType, Watched(t, fd, fdType));
    }
  }

  /** Any change of the threshold rebuilds the masks, so they cover everything whatever they did before. */
  lemma SetThresholdKeeps(t: Tables, priority: int)
    requires Inv(t) && !SetThreshold(t, priority).Behind?
    ensures var a := SetThreshold(t, priority);
      Inv(a.t) && (MasksCover(t) || (!BadPriority(priority) && priority != t.threshold) ==> MasksCover(a.t))
  {
    hide QueueInv, ActiveIn;
  }

  /** A descriptor that is registered, switched off and registered again is active, but not waited for. */
  lemma RevivalLosesBit(h: Handler)
    ensures var t := Attach(Deactivate(Attach(Init(), 5, 0, h, 0).t, 5, 0).t, 5, 0, h, 0).t;
      5 in Active(t, t.threshold, 0) && 5 !in t.mask[0]
  {
    var e := FdEvent(5, 0, h, true);
    var t1 := Attach(Init(), 5, 0, h, 0).t;
    assert t1.queues[0].events == [e];
    var t2 := Deactivate(t1, 5, 0).t;
    assert t2.queues[0].events == [e.(active := false)];
    var t3 := Attach(t2, 5, 0, h, 0).t;
    assert t3.queues[0].events == [e];
    assert e in t3.queues[0].events;
  }

  // ---------------------------------------------------------------- runs

  datatype Op =
    | DoAttach(fd: int, fdType: int, h: Handler, priority: int)
    | DoDetach(fd: int, fdType: int)
    | DoDeactivate(fd: int, fdType: int)
    | DoActivate(fd: int, fdType: int)
    | DoThreshold(priority: int)

  function Do(t: Tables, op: Op): Answer
    requires Shaped(t)
  {
    match op
    case DoAttach(fd, fdType, h, priority) => Attach(t, fd, fdType, h, priority)
    case DoDetach(fd, fdType) => Detach(t, fd, fdType)
    case DoDeactivate(fd, fdType) => Deactivate(t, fd, fdType)
    case DoActivate(fd, fdType) => Activate(t, fd, fdType)
    case DoThreshold(priority) => SetThreshold(t, priority)
  }

  predicate Revives(t: Tables, op: Op)
    requires Shaped(t)
  {
    op.DoAttach? && Revived(t, op.fd, op.fdType, op.priority)
  }

  /** A run of calls that stay within the tables. */
  ghost predicate IsRun(t: Tables, ops: seq<Op>, last: Tables)
    decreases |ops|
  {
    if ops == [] then t == last
    else Shaped(t) && !Do(t, ops[0]).Behind? && IsRun(Do(t, ops[0]).t, ops[1..], last)
  }

  ghost predicate NeverRevives(t: Tables, ops: seq<Op>)
    decreases |ops|
  {
    ops == []
    || (Shaped(t) && !Do(t, ops[0]).Behind? && !Revives(t, ops[0]) && NeverRevives(Do(t, ops[0]).t, ops[1..]))
  }

  lemma OpKeeps(t: Tables, op: Op)
    requires Inv(t) && !Do(t, op).Behind?
    ensures Inv(Do(t, op).t)
    ensures MasksCover(t) ==> (MasksCover(Do(t, op).t) <==> !Revives(t, op))
  {
    hide Inv, MasksCover, Attach, Detach, Deactivate, Activate, SetThreshold;
    InvShaped(t);
    match op
    case DoAttach(fd, fdType, h, priority) => AttachKeeps(t, fd, fdType, h, priority);
    case DoDetach(fd, fdType) => DetachKeeps(t, fd, fdType);
    case DoDeactivate(fd, fdType) => DeactivateKeeps(t, fd, fdType);
    case DoActivate(fd, fdType) => ActivateKeeps(t, fd, fdType);
    case DoThreshold(priority) => SetThresholdKeeps(t, priority);
  }

  lemma InvShaped(t: Tables)
    requires Inv(t)
    ensures Shaped(t)
  {
  }

  /** From any state with the invariant, every run keeps it: the counts are right, pairs are unique, bits mean
      active entries. As long as nothing switched off is registered again, the masks also cover every active
      entry. */
  lemma {:induction false} RunsKeepFrom(t: Tables, ops: seq<Op>, last: Tables)
    requires Inv(t) && IsRun(t, ops, last)
    ensures Inv(last)
    ensures MasksCover(t) && NeverRevives(t, ops) ==> MasksCover(last)
    decreases |ops|
  {
    hide Inv, MasksCover, Do, Revives;
    if ops != [] {
      OpKeeps(t, ops[0]);
      RunsKeepFrom(Do(t, ops[0]).t, ops[1..], last);
    }
  }

  /** Every run from the empty tables. */
  lemma RunsKeep(ops: seq<Op>, last: Tables)
    requires IsRun(Init(), ops, last)
    ensures Inv(last)
    ensures NeverRevives(Init(), ops) ==> MasksCover(last)
  {
    StartInv();
    RunsKeepFrom(Init(), ops, last);
  }

  // ---------------------------------------------------------------- calls that leave the tables

  /** The call names no value that the guards let through and the tables do not have. */
  predicate Within(op: Op) {
    op.DoAttach? ==> op.fd != FD_SETSIZE && op.fdType != NUM_FDTYPES && op.priority != NUM_PRIORITY
  }

  ghost predicate HaveBits(t: Tables)
    requires Shaped(t)
  {
    forall i, e | 0 <= i < 3 && e in t.queues[i].events :: HasBit(e.fd, e.fdType)
  }

  /** While all entries have bits, a call writes behind the tables exactly when it registers at the priority one
      too high, or newly registers, at or above the threshold, a pair without a bit. */
  lemma BehindIff(t: Tables, op: Op)
    requires Inv(t) && HaveBits(t)
    ensures Do(t, op).Behind? <==>
      && op.DoAttach? && !BadFd(op.fd) && !BadType(op.fdType) && !BadPriority(op.priority)
      && (op.priority < NUM_PRIORITY ==>
            && !HasBit(op.fd, op.fdType) && t.threshold <= op.priority
            && |t.queues[op.priority].events| < MAX_FD_EVENTS)
  {
    hide MasksMean, CountActive, OneEach, Enter, Drop, Switch, ActiveIn;
    match op
    case DoAttach(fd, fdType, _, _) => NowhereWithoutBit(t, fd, fdType);
    case DoThreshold(_) =>
    case _ => NowhereWithoutBit(t, op.fd, op.fdType);
  }

  lemma HeldHasBit(t: Tables, i: int, fd: int, fdType: int)
    requires Shaped(t) && HaveBits(t) && 0 <= i < 3 && Holds(t.queues[i], fd, fdType)
    ensures HasBit(fd, fdType)
  {
    var q := t.queues[i].events;
    assert q[IndexOf(q, fd, fdType)] in q;
  }

  lemma NowhereWithoutBit(t: Tables, fd: int, fdType: int)
    requires Shaped(t) && HaveBits(t)
    ensures !HasBit(fd, fdType) ==> forall i | 0 <= i < 3 :: !Holds(t.queues[i], fd, fdType)
  {
    forall i | 0 <= i < 3 && !HasBit(fd, fdType) ensures !Holds(t.queues[i], fd, fdType) {
      if Holds(t.queues[i], fd, fdType) {
        HeldHasBit(t, i, fd, fdType);
      }
    }
  }

  /** A call within the tables leaves every entry with a bit. */
  lemma WithinKeeps(t: Tables, op: Op)
    requires Inv(t) && HaveBits(t) && Within(op)
    ensures !Do(t, op).Behind? && HaveBits(Do(t, op).t)
  {
    hide Inv, IndexOf, ActiveIn, Do;
    InvShaped(t);
    BehindIff(t, op);
    OpKeeps(t, op);
    InvShaped(Do(t, op).t);
    forall i, e | 0 <= i < 3 && e in Do(t, op).t.queues[i].events ensures HasBit(e.fd, e.fdType) {
      EntryFrom(t, op, i, e);
    }
  }

  /** Where an entry comes from. */
  lemma EntryFrom(t: Tables, op: Op, i: int, e: FdEvent)
    requires Shaped(t) && !Do(t, op).Behind? && 0 <= i < 3 && e in Do(t, op).t.queues[i].events
    ensures (op.DoAttach? && e.fd == op.fd && e.fdType == op.fdType && !BadFd(e.fd) && !BadType(e.fdType))
         || exists was :: was in t.queues[i].events && was.fd == e.fd && was.fdType == e.fdType
  {
    hide IndexOf, ActiveIn;
    var k :| 0 <= k < |Do(t, op).t.queues[i].events| && Do(t, op).t.queues[i].events[k] == e;
    if k < |t.queues[i].events| {
      assert t.queues[i].events[k] in t.queues[i].events;
    }
  }

  /** Calls that name only values the tables have never leave them, in whatever order they come. */
  lemma {:induction false} WithinFrom(t: Tables, ops: seq<Op>) returns (last: Tables)
    requires Inv(t) && HaveBits(t) && forall op | op in ops :: Within(op)
    ensures IsRun(t, ops, last) && Inv(last) && HaveBits(last)
    decreases |ops|
  {
    hide Inv, MasksCover, Do, Revives;
    InvShaped(t);
    if ops == [] {
      last := t;
    } else {
      WithinKeeps(t, ops[0]);
      OpKeeps(t, ops[0]);
      last := WithinFrom(Do(t, ops[0]).t, ops[1..]);
    }
  }

  lemma WithinStays(ops: seq<Op>) returns (last: Tables)
    requires forall op | op in ops :: Within(op)
    ensures IsRun(Init(), ops, last) && Inv(last) && HaveBits(last)
  {
    StartInv();
    last := WithinFrom(Init(), ops);
  }
}
