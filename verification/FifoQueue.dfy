/** The bounded blocking queue as a monitor: what each critical section does to the items, and to the
    threads that wait on its one condition variable. Any interleaving of threads is a sequence of steps. */
module FifoQueue {

  type Thread = nat

  /** What a thread is doing: nothing here, or in the wait loop of push or of a pop, where it may have been
      woken and has yet to get the lock. */
  datatype Phase<T> =
    | Idle
    | Pushing(x: T, woken: bool)
    | Popping(timed: bool, woken: bool)

  /** `pushed` and `popped` record what was ever put in and taken out since the last reset. */
  datatype Queue<T> = Queue(items: seq<T>, currSize: int, sigKill: bool, maxSize: nat,
                            threads: map<Thread, Phase<T>>, pushed: seq<T>, popped: seq<T>)

  function New<T>(maxSize: nat, threads: set<Thread>): Queue<T> {
    Queue([], 0, false, maxSize, map t | t in threads :: Idle, [], [])
  }

  function Woken<T>(p: Phase<T>): Phase<T> {
    match p
    case Idle => Idle
    case Pushing(x, _) => Pushing(x, true)
    case Popping(timed, _) => Popping(timed, true)
  }

  /** notify_all. */
  function Notify<T>(threads: map<Thread, Phase<T>>): map<Thread, Phase<T>> {
    map t | t in threads :: Woken(threads[t])
  }

  function At<T>(q: Queue<T>, t: Thread, p: Phase<T>): Queue<T> {
    q.(threads := q.threads[t := p])
  }

  // ---------------------------------------------------------------- critical sections

  /** push, from the test of its loop to the wait or the return. */
  function PushSection<T>(q: Queue<T>, t: Thread, x: T): Queue<T> {
    if !q.sigKill && q.currSize >= q.maxSize then At(q, t, Pushing(x, false))
    else if q.sigKill then At(q, t, Idle)
    else
      Queue(q.items + [x], q.currSize + 1, q.sigKill, q.maxSize, Notify(q.threads[t := Idle]), q.pushed + [x], q.popped)
  }

  /** The same for pop and timed_pop. */
  function PopSection<T>(q: Queue<T>, t: Thread, timed: bool): Queue<T> {
    if !q.sigKill && q.currSize <= 0 then At(q, t, Popping(timed, false))
    else if q.sigKill || q.items == [] then At(q, t, Idle)
    else TakeFirst(q, t)
  }

  function TakeFirst<T>(q: Queue<T>, t: Thread): Queue<T>
    requires q.items != []
  {
    Queue(q.items[1..], q.currSize - 1, q.sigKill, q.maxSize, Notify(q.threads[t := Idle]), q.pushed,
          q.popped + [q.items[0]])
  }

  /** async_pop, and try_pop when it gets the lock: no waiting. */
  function AsyncPopSection<T>(q: Queue<T>, t: Thread): Queue<T> {
    if q.sigKill || q.currSize <= 0 || q.items == [] then q else TakeFirst(q, t)
  }

  function KillSection<T>(q: Queue<T>): Queue<T> {
    q.(sigKill := true, threads := Notify(q.threads))
  }

  /** reset wakes nobody. */
  function ResetSection<T>(q: Queue<T>): Queue<T> {
    q.(items := [], currSize := 0, sigKill := false, pushed := [], popped := [])
  }

  datatype Step<T> =
    | Push(t: Thread, x: T)
    | Pop(t: Thread, timed: bool)
    | Resume(t: Thread)
    | TimeOut(t: Thread)
    | WakeUp(t: Thread)
    | AsyncPop(t: Thread)
    | Kill
    | Reset

  /** What may happen next: an idle thread may call, a woken one may get the lock, a timed wait may run
      out, and a waiting thread may wake up for no reason. */
  predicate Enabled<T>(q: Queue<T>, s: Step<T>) {
    match s
    case Push(t, _) => t in q.threads && q.threads[t].Idle?
    case Pop(t, _) => t in q.threads && q.threads[t].Idle?
    case Resume(t) => t in q.threads && !q.threads[t].Idle? && q.threads[t].woken
    case TimeOut(t) => t in q.threads && q.threads[t].Popping? && q.threads[t].timed
    case WakeUp(t) => t in q.threads
    case AsyncPop(t) => t in q.threads && q.threads[t].Idle?
    case Kill => true
    case Reset => true
  }

  function Next<T>(q: Queue<T>, s: Step<T>): Queue<T>
    requires Enabled(q, s)
  {
    match s
    case Push(t, x) => PushSection(q, t, x)
    case Pop(t, timed) => PopSection(q, t, timed)
    case Resume(t) =>
      (match q.threads[t]
       case Pushing(x, _) => PushSection(q, t, x)
       case Popping(timed, _) => PopSection(q, t, timed)
       case Idle => q)
    case TimeOut(t) => At(q, t, Idle)
    case WakeUp(t) => At(q, t, Woken(q.threads[t]))
    case AsyncPop(t) => AsyncPopSection(q, t)
    case Kill => KillSection(q)
    case Reset => ResetSection(q)
  }

  // ---------------------------------------------------------------- the invariant

  /** Asleep in the wait of push. */
  predicate WaitsToPush<T>(p: Phase<T>) {
    p.Pushing? && !p.woken
  }

  predicate WaitsToPop<T>(p: Phase<T>) {
    p.Popping? && !p.woken
  }

  /** The items are those pushed and not popped, in order, counted right, and within bounds; a consumer
      sleeps only while there is nothing, and nobody sleeps after a shutdown. */
  ghost predicate Safe<T>(q: Queue<T>) {
    && q.pushed == q.popped + q.items
    && q.currSize == |q.items| <= q.maxSize
    && (forall t | t in q.threads && WaitsToPop(q.threads[t]) :: q.items == [] && !q.sigKill)
    && (forall t | t in q.threads && WaitsToPush(q.threads[t]) :: !q.sigKill)
  }

  ghost predicate ProducerWaits<T>(q: Queue<T>) {
    exists t :: t in q.threads && WaitsToPush(q.threads[t])
  }

  /** A producer, too, sleeps only while it could not proceed. */
  ghost predicate Inv<T>(q: Queue<T>) {
    Safe(q) && (ProducerWaits(q) ==> |q.items| == q.maxSize)
  }

  lemma NewInv<T>(maxSize: nat, threads: set<Thread>)
    ensures Inv(New<T>(maxSize, threads))
  {
  }

  lemma NotifiedSleepNot<T>(threads: map<Thread, Phase<T>>)
    ensures Notify(threads).Keys == threads.Keys
    ensures forall t | t in threads :: !WaitsToPush(Notify(threads)[t]) && !WaitsToPop(Notify(threads)[t])
  {
  }

  lemma PushKeeps<T>(q: Queue<T>, t: Thread, x: T)
    requires Safe(q)
    ensures var r := PushSection(q, t, x);
      Safe(r) && (Inv(q) || r.currSize != q.currSize ==> Inv(r))
  {
    hide Notify;
    NotifiedSleepNot(q.threads[t := Idle]);
    assert q.popped + q.items + [x] == q.popped + (q.items + [x]);
  }

  lemma TakeKeeps<T>(q: Queue<T>, t: Thread)
    requires Safe(q) && q.items != []
    ensures Inv(TakeFirst(q, t))
  {
    hide Notify;
    NotifiedSleepNot(q.threads[t := Idle]);
    assert q.popped + q.items == q.popped + [q.items[0]] + q.items[1..];
  }

  lemma PopKeeps<T>(q: Queue<T>, t: Thread, timed: bool)
    requires Safe(q)
    ensures var r := PopSection(q, t, timed);
      Safe(r) && (Inv(q) || r.currSize != q.currSize ==> Inv(r))
  {
    hide TakeFirst;
    if q.items != [] {
      TakeKeeps(q, t);
    }
  }

  lemma KillKeeps<T>(q: Queue<T>)
    requires Safe(q)
    ensures Inv(KillSection(q))
  {
    hide Notify;
    NotifiedSleepNot(q.threads);
  }

  /** reset keeps the invariant exactly if it does not leave a producer asleep at a queue that now has
      room. */
  lemma ResetKeepsIff<T>(q: Queue<T>)
    requires Safe(q)
    ensures Safe(ResetSection(q))
    ensures Inv(ResetSection(q)) <==> !Strands(q)
  {
    assert ProducerWaits(ResetSection(q)) <==> ProducerWaits(q);
  }

  /** A reset now would leave a producer asleep. */
  ghost predicate Strands<T>(q: Queue<T>) {
    ProducerWaits(q) && q.maxSize > 0
  }

  /** The step puts an item in, takes one out, or shuts the queue down; each of these wakes everybody. */
  predicate Notifies<T>(q: Queue<T>, s: Step<T>)
    requires Enabled(q, s)
  {
    s.Kill? || (!s.Reset? && Next(q, s).currSize != q.currSize)
  }

  /** Every step keeps all but the last clause of the invariant; that is lost by a reset which leaves a producer
      asleep, by no other step, and comes back with the first step that notifies. */
  lemma StepKeeps<T>(q: Queue<T>, s: Step<T>)
    requires Safe(q) && Enabled(q, s)
    ensures Safe(Next(q, s))
    ensures Inv(q) ==> (Inv(Next(q, s)) <==> !(s.Reset? && Strands(q)))
    ensures Notifies(q, s) ==> Inv(Next(q, s))
  {
    hide PushSection, PopSection, ResetSection, KillSection;
    match s
    case Push(t, x) => PushKeeps(q, t, x);
    case Pop(t, timed) => PopKeeps(q, t, timed);
    case Resume(t) =>
      match q.threads[t] {
        case Pushing(x, _) => PushKeeps(q, t, x);
        case Popping(timed, _) => PopKeeps(q, t, timed);
        case Idle =>
      }
    case TimeOut(t) => FewerSleep(q, t, Idle);
    case WakeUp(t) => FewerSleep(q, t, Woken(q.threads[t]));
    case AsyncPop(t) => AsyncPopKeeps(q, t);
    case Kill => KillKeeps(q);
    case Reset => ResetKeepsIff(q);
  }

  lemma AsyncPopKeeps<T>(q: Queue<T>, t: Thread)
    requires Safe(q)
    ensures var r := AsyncPopSection(q, t);
      Safe(r) && (Inv(q) || r.currSize != q.currSize ==> Inv(r))
  {
    hide TakeFirst;
    if q.items != [] {
      TakeKeeps(q, t);
    }
  }

  lemma FewerSleep<T>(q: Queue<T>, t: Thread, p: Phase<T>)
    requires Safe(q) && !WaitsToPush(p) && !WaitsToPop(p)
    ensures Safe(At(q, t, p)) && (Inv(q) ==> Inv(At(q, t, p)))
  {
  }

  ghost predicate IsRun<T>(q: Queue<T>, steps: seq<Step<T>>, last: Queue<T>)
    decreases |steps|
  {
    if steps == [] then q == last else Enabled(q, steps[0]) && IsRun(Next(q, steps[0]), steps[1..], last)
  }

  /** Since the last reset that left a producer asleep, if any, some step notified; `good` says so of the steps
      before. */
  ghost predicate AllNotified<T>(q: Queue<T>, steps: seq<Step<T>>, good: bool)
    decreases |steps|
  {
    if steps == [] then good
    else
      Enabled(q, steps[0]) &&
      AllNotified(Next(q, steps[0]), steps[1..],
                  !(steps[0].Reset? && Strands(q)) && (good || Notifies(q, steps[0])))
  }

  lemma {:induction false} RunsKeepFrom<T>(q: Queue<T>, steps: seq<Step<T>>, last: Queue<T>, good: bool)
    requires Safe(q) && (good ==> Inv(q)) && IsRun(q, steps, last)
    ensures Safe(last)
    ensures AllNotified(q, steps, good) ==> Inv(last)
    decreases |steps|
  {
    hide Safe, Inv, Next, Enabled, Notifies, Strands;
    if steps != [] {
      StepKeeps(q, steps[0]);
      RunsKeepFrom(Next(q, steps[0]), steps[1..], last,
                   !(steps[0].Reset? && Strands(q)) && (good || Notifies(q, steps[0])));
    }
  }

  /** Under every interleaving from a new queue: first in first out, bounded, and no consumer sleeps that could
      go on; nor does a producer, unless a reset left it asleep and nothing notified since. */
  lemma RunsKeep<T>(maxSize: nat, threads: set<Thread>, steps: seq<Step<T>>, last: Queue<T>)
    requires IsRun(New(maxSize, threads), steps, last)
    ensures Safe(last)
    ensures AllNotified(New(maxSize, threads), steps, true) ==> Inv(last)
  {
    hide Safe, Inv, IsRun, AllNotified;
    NewInv<T>(maxSize, threads);
    InvIsSafe(New<T>(maxSize, threads));
    RunsKeepFrom(New(maxSize, threads), steps, last, true);
  }

  lemma InvIsSafe<T>(q: Queue<T>)
    requires Inv(q)
    ensures Safe(q)
  {
  }

  /** Whoever pops next gets the item that was pushed first among those not yet popped. */
  lemma FirstInFirstOut<T>(q: Queue<T>, t: Thread, timed: bool)
    requires Safe(q) && q.items != [] && !q.sigKill
    ensures var r := PopSection(q, t, timed);
      |q.popped| < |q.pushed| && r.popped == q.popped + [q.pushed[|q.popped|]] && r.popped == q.pushed[..|q.popped| + 1]
  {
    assert q.pushed[|q.popped|] == q.items[0];
    assert q.pushed[..|q.popped|] == q.popped;
  }

  // ---------------------------------------------------------------- what a step does

  /** What thread t has done to the queue: put items behind the others, and taken some from the front. If it did
      either, whoever waits has been woken and waits for what it waited for; if not, nobody has. */
  ghost predicate Moves<T>(q: Queue<T>, r: Queue<T>, t: Thread, put: seq<T>, taken: seq<T>) {
    && r.pushed == q.pushed + put && r.popped == q.popped + taken && taken + r.items == q.items + put
    && r.currSize == q.currSize + |put| - |taken| && r.sigKill == q.sigKill && r.maxSize == q.maxSize
    && r.threads.Keys == q.threads.Keys
    && forall u | u in q.threads && u != t :: SameWait(q.threads[u], r.threads[u], put + taken != [])
  }

  /** One wait, perhaps woken in between. */
  ghost predicate SameWait<T>(p: Phase<T>, r: Phase<T>, notified: bool) {
    && (p.Idle? <==> r.Idle?) && (p.Pushing? <==> r.Pushing?)
    && (p.Pushing? ==> r.x == p.x) && (p.Popping? ==> r.timed == p.timed)
    && (!p.Idle? ==> r.woken == (notified || p.woken))
  }

  /** push takes in its item unless the queue is full or shut down; it sleeps exactly if it is full. */
  lemma PushLaw<T>(q: Queue<T>, t: Thread, x: T)
    requires Safe(q) && t in q.threads
    ensures var r, full := PushSection(q, t, x), |q.items| == q.maxSize;
      && Moves(q, r, t, if q.sigKill || full then [] else [x], [])
      && r.threads[t] == if full && !q.sigKill then Pushing(x, false) else Idle
  {
    hide Notify;
    NotifiedIs(q.threads[t := Idle]);
  }

  lemma NotifiedIs<T>(threads: map<Thread, Phase<T>>)
    ensures Notify(threads).Keys == threads.Keys
    ensures forall u | u in threads :: SameWait(threads[u], Notify(threads)[u], true)
  {
  }

  /** The front item is the one pushed first of those not yet popped. */
  lemma Oldest<T>(q: Queue<T>)
    requires Safe(q) && q.items != []
    ensures |q.popped| < |q.pushed| && q.items[0] == q.pushed[|q.popped|]
  {
  }

  lemma TakeFirstMoves<T>(q: Queue<T>, t: Thread)
    requires Safe(q) && q.items != [] && t in q.threads
    ensures |q.popped| < |q.pushed|
    ensures Moves(q, TakeFirst(q, t), t, [], [q.pushed[|q.popped|]]) && TakeFirst(q, t).threads[t] == Idle
  {
    hide Notify;
    Oldest(q);
    NotifiedIs(q.threads[t := Idle]);
    assert q.items == [q.items[0]] + q.items[1..];
  }

  /** pop and timed_pop take the item that was pushed first of those not yet popped, unless the queue is shut down or
      empty; they sleep exactly if it is empty. */
  lemma PopLaw<T>(q: Queue<T>, t: Thread, timed: bool)
    requires Safe(q) && t in q.threads
    ensures var r, none := PopSection(q, t, timed), q.items == [];
      && (none || |q.popped| < |q.pushed|)
      && Moves(q, r, t, [], if q.sigKill || none then [] else [q.pushed[|q.popped|]])
      && r.threads[t] == if none && !q.sigKill then Popping(timed, false) else Idle
  {
    hide TakeFirst;
    if q.items != [] {
      TakeFirstMoves(q, t);
    }
  }

  /** async_pop and try_pop take the same item, or return at once. */
  lemma AsyncPopLaw<T>(q: Queue<T>, t: Thread)
    requires Safe(q) && t in q.threads && q.threads[t].Idle?
    ensures var r, none := AsyncPopSection(q, t), q.items == [];
      && (none || |q.popped| < |q.pushed|)
      && Moves(q, r, t, [], if q.sigKill || none then [] else [q.pushed[|q.popped|]])
      && r.threads[t] == Idle
  {
    hide TakeFirst;
    if q.items != [] {
      TakeFirstMoves(q, t);
    }
  }

  /** signal_for_kill moves no item and wakes everybody. */
  lemma KillLaw<T>(q: Queue<T>)
    ensures var r := KillSection(q);
      && r.items == q.items && r.pushed == q.pushed && r.popped == q.popped && r.currSize == q.currSize
      && r.sigKill && r.maxSize == q.maxSize && r.threads.Keys == q.threads.Keys
      && forall u | u in q.threads :: SameWait(q.threads[u], r.threads[u], true)
  {
    hide Notify;
    NotifiedIs(q.threads);
  }

  // ---------------------------------------------------------------- the class

  /** The queue object; each method is one critical section, up to its wait or its return. */
  class SyncFifoQueue<T> {
    var items: seq<T>
    var currSize: int
    var sigKill: bool
    const maxSize: nat
    var threads: map<Thread, Phase<T>>
    ghost var pushed: seq<T>
    ghost var popped: seq<T>

    ghost function Abs(): Queue<T>
      reads this
    {
      Queue(items, currSize, sigKill, maxSize, threads, pushed, popped)
    }

    constructor (maxSize: nat, threads: set<Thread>)
      ensures Abs() == New(maxSize, threads)
    {
      this.maxSize := maxSize;
      currSize := 0;
      sigKill := false;
      items := [];
      this.threads := map t | t in threads :: Idle;
      pushed, popped := [], [];
    }

    method NotifyAll()
      modifies this`threads
      ensures threads == Notify(old(threads))
    {
      threads := map t | t in threads :: Woken(threads[t]);
    }

    /** Says whether the thread is done, rather than asleep. */
    method Push(t: Thread, x: T) returns (done: bool)
      modifies this
      ensures Abs() == PushSection(old(Abs()), t, x) && (done <==> threads[t].Idle?)
    {
      if !sigKill && currSize >= maxSize {
        threads := threads[t := Pushing(x, false)];
        return false;
      }
      threads := threads[t := Idle];
      if sigKill {
        return true;
      }
      items := items + [x];
      pushed := pushed + [x];
      currSize := currSize + 1;
      NotifyAll();
      return true;
    }

    method Take() returns (x: T)
      requires items != []
      modifies this
      ensures x == old(items[0]) && items == old(items[1..]) && currSize == old(currSize) - 1 && sigKill == old(sigKill)
      ensures threads == Notify(old(threads)) && pushed == old(pushed) && popped == old(popped) + [x]
    {
      x := items[0];
      items := items[1..];
      popped := popped + [x];
      currSize := currSize - 1;
      NotifyAll();
    }

    /** pop and timed_pop; nothing is returned by a thread that is put to sleep, or after a shutdown. */
    method Pop(t: Thread, timed: bool) returns (taken: seq<T>)
      requires Safe(Abs())
      modifies this
      ensures Abs() == PopSection(old(Abs()), t, timed) && popped == old(popped) + taken
    {
      if !sigKill && currSize <= 0 {
        threads := threads[t := Popping(timed, false)];
        return [];
      }
      threads := threads[t := Idle];
      if sigKill {
        return [];
      }
      var x := Take();
      return [x];
    }

    method AsyncPop(t: Thread) returns (taken: seq<T>)
      requires Safe(Abs()) && t in threads && threads[t].Idle?
      modifies this
      ensures Abs() == AsyncPopSection(old(Abs()), t) && popped == old(popped) + taken
    {
      if sigKill || currSize <= 0 {
        return [];
      }
      assert threads[t := Idle] == threads;
      var x := Take();
      return [x];
    }

    method SignalForKill()
      modifies this
      ensures Abs() == KillSection(old(Abs()))
    {
      sigKill := true;
      NotifyAll();
    }

    method Reset()
      modifies this
      ensures Abs() == ResetSection(old(Abs()))
    {
      items := [];
      sigKill := false;
      currSize := 0;
      pushed, popped := [], [];
    }

    method IsFull() returns (full: bool)
      requires Safe(Abs())
      ensures full <==> |items| == maxSize
    {
      return maxSize == currSize;
    }
  }
}
