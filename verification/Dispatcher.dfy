/** The dispatcher's worker: it alone fills a group's queue, and drops what arrives while the queue is
    full, while any number of threads take from it. */
module Dispatcher {
  import opened FifoQueue

  /** What the worker did with a message of the group. */
  datatype Arrival<T> = Arrival(x: T, kept: bool)

  datatype Worker<T> = Receiving | Admitted(x: T)

  /** One registered group: its queue, the worker's place in its loop, and the messages so far. */
  datatype System<T> = System(q: Queue<T>, worker: Worker<T>, arrivals: seq<Arrival<T>>)

  datatype Event<T> = Receive(x: T) | Deliver | Consumer(s: Step<T>)

  /** isFull. */
  predicate IsFull<T>(q: Queue<T>) {
    q.maxSize == q.currSize
  }

  /** The worker receives, tests the queue, and pushes in a later critical section; consumers do anything
      but push, and the queue is neither reset nor shut down while the group is registered. */
  predicate Enabled<T>(d: System<T>, w: Thread, e: Event<T>) {
    match e
    case Receive(_) => d.worker.Receiving? && w in d.q.threads && d.q.threads[w].Idle?
    case Deliver => d.worker.Admitted? && w in d.q.threads && d.q.threads[w].Idle?
    case Consumer(s) =>
      !s.Push? && !s.Kill? && !s.Reset? && s.t != w && FifoQueue.Enabled(d.q, s)
  }

  function Next<T>(d: System<T>, w: Thread, e: Event<T>): System<T>
    requires Enabled(d, w, e)
  {
    match e
    case Receive(x) =>
      if IsFull(d.q) then System(d.q, Receiving, d.arrivals + [Arrival(x, false)])
      else System(d.q, Admitted(x), d.arrivals + [Arrival(x, true)])
    case Deliver => System(PushSection(d.q, w, d.worker.x), Receiving, d.arrivals)
    case Consumer(s) => System(FifoQueue.Next(d.q, s), d.worker, d.arrivals)
  }

  /** The messages that were not dropped, in the order of their arrival. */
  function Kept<T>(a: seq<Arrival<T>>): seq<T> {
    if a == [] then []
    else Kept(a[..|a| - 1]) + (if a[|a| - 1].kept then [a[|a| - 1].x] else [])
  }

  /** Nobody but the worker pushes, the worker never sleeps, an admitted message still has room, and the
      queue has been given exactly the kept messages. */
  ghost predicate SystemInv<T>(d: System<T>, w: Thread) {
    && Inv(d.q) && !d.q.sigKill && w in d.q.threads && d.q.threads[w].Idle?
    && (forall t | t in d.q.threads :: !d.q.threads[t].Pushing?)
    && (d.worker.Admitted? ==> |d.q.items| < d.q.maxSize)
    && Kept(d.arrivals) == d.q.pushed + (if d.worker.Admitted? then [d.worker.x] else [])
  }

  lemma StartInv<T>(maxSize: nat, threads: set<Thread>, w: Thread)
    requires w in threads
    ensures SystemInv(System(New<T>(maxSize, threads), Receiving, []), w)
  {
  }

  lemma KeptSnoc<T>(a: seq<Arrival<T>>, x: Arrival<T>)
    ensures Kept(a + [x]) == Kept(a) + (if x.kept then [x.x] else [])
  {
    assert (a + [x])[..|a|] == a;
  }

  /** The push after the test never waits: in between, the queue can only have become shorter. */
  lemma DeliverDoesNotWait<T>(d: System<T>, w: Thread)
    requires SystemInv(d, w) && d.worker.Admitted?
    ensures PushSection(d.q, w, d.worker.x).threads[w].Idle?
    ensures PushSection(d.q, w, d.worker.x).items == d.q.items + [d.worker.x]
  {
  }

  lemma ConsumersOnlyTake<T>(q: Queue<T>, s: Step<T>, w: Thread)
    requires Inv(q) && !q.sigKill && FifoQueue.Enabled(q, s) && !s.Push? && !s.Kill? && !s.Reset? && s.t != w
    requires w in q.threads && q.threads[w].Idle? && forall t | t in q.threads :: !q.threads[t].Pushing?
    ensures var r := FifoQueue.Next(q, s);
      && |r.items| <= |q.items| && r.pushed == q.pushed && r.maxSize == q.maxSize && !r.sigKill
      && w in r.threads && r.threads[w].Idle? && forall t | t in r.threads :: !r.threads[t].Pushing?
  {
  }

  lemma EventKeeps<T>(d: System<T>, w: Thread, e: Event<T>)
    requires SystemInv(d, w) && Enabled(d, w, e)
    ensures SystemInv(Next(d, w, e), w)
  {
    match e
    case Receive(x) => KeptSnoc(d.arrivals, Arrival(x, !IsFull(d.q)));
    case Deliver =>
      PushKeeps(d.q, w, d.worker.x);
      DeliverDoesNotWait(d, w);
    case Consumer(s) =>
      StepKeeps(d.q, s);
      ConsumersOnlyTake(d.q, s, w);
  }

  ghost predicate IsRun<T>(d: System<T>, w: Thread, events: seq<Event<T>>, last: System<T>)
    decreases |events|
  {
    if events == [] then d == last else Enabled(d, w, events[0]) && IsRun(Next(d, w, events[0]), w, events[1..], last)
  }

  lemma {:induction false} RunsKeep<T>(d: System<T>, w: Thread, events: seq<Event<T>>, last: System<T>)
    requires SystemInv(d, w) && IsRun(d, w, events, last)
    ensures SystemInv(last, w)
    decreases |events|
  {
    hide SystemInv, Enabled, Next;
    if events != [] {
      EventKeeps(d, w, events[0]);
      RunsKeep(Next(d, w, events[0]), w, events[1..], last);
    }
  }

  /** a is b with some elements left out. */
  ghost predicate IsSubsequence<T>(a: seq<T>, b: seq<T>) {
    a == [] || (b != [] && ((a[|a| - 1] == b[|b| - 1] && IsSubsequence(a[..|a| - 1], b[..|b| - 1]))
                            || IsSubsequence(a, b[..|b| - 1])))
  }

  function Messages<T>(a: seq<Arrival<T>>): (r: seq<T>)
    ensures |r| == |a| && forall i | 0 <= i < |r| :: r[i] == a[i].x
  {
    seq(|a|, i requires 0 <= i < |a| => a[i].x)
  }

  lemma {:induction false} KeptIsSubsequence<T>(a: seq<Arrival<T>>)
    ensures IsSubsequence(Kept(a), Messages(a))
  {
    if a != [] {
      var b := a[..|a| - 1];
      KeptIsSubsequence(b);
      assert Messages(a)[..|a| - 1] == Messages(b);
      if a[|a| - 1].kept {
        assert Kept(a)[..|Kept(a)| - 1] == Kept(b);
      } else {
        assert Kept(a) == Kept(b);
        assert IsSubsequence(Kept(a), Messages(a)[..|a| - 1]);
      }
    }
  }

  /** What consumers have taken is, in order, the front part of the messages that were kept; these are the
      messages of the group in the order they arrived, without those that met a full queue. */
  lemma ConsumersSeeArrivals<T>(maxSize: nat, threads: set<Thread>, w: Thread, events: seq<Event<T>>, last: System<T>)
    requires w in threads && IsRun(System(New<T>(maxSize, threads), Receiving, []), w, events, last)
    ensures last.q.popped <= Kept(last.arrivals) && IsSubsequence(Kept(last.arrivals), Messages(last.arrivals))
    ensures last.q.threads.Keys >= {w} && last.q.threads[w].Idle?
  {
    hide SystemInv;
    StartInv<T>(maxSize, threads, w);
    RunsKeep(System(New<T>(maxSize, threads), Receiving, []), w, events, last);
    KeptIsSubsequence(last.arrivals);
    Taken(last, w);
  }

  lemma Taken<T>(d: System<T>, w: Thread)
    requires SystemInv(d, w)
    ensures d.q.popped <= Kept(d.arrivals) && w in d.q.threads && d.q.threads[w].Idle?
  {
  }

  /** Every dropped message met as many kept ones as the queue holds. */
  ghost predicate DroppedLate<T>(maxSize: nat, a: seq<Arrival<T>>) {
    forall k | 0 <= k < |a| && !a[k].kept :: |Kept(a[..k])| >= maxSize
  }

  lemma OneMoreArrival<T>(d: System<T>, w: Thread, e: Event<T>)
    requires SystemInv(d, w) && Enabled(d, w, e) && DroppedLate(d.q.maxSize, d.arrivals)
    ensures Next(d, w, e).q.maxSize == d.q.maxSize && DroppedLate(d.q.maxSize, Next(d, w, e).arrivals)
  {
    hide Kept;
    var a, b := d.arrivals, Next(d, w, e).arrivals;
    assert b[..|a|] == a;
    forall k | 0 <= k < |b| && !b[k].kept ensures |Kept(b[..k])| >= d.q.maxSize {
      if k < |a| {
        assert b[..k] == a[..k];
      } else {
        DroppedIffFull(d, w, e.x);
      }
    }
  }

  /** A message is dropped exactly if the queue held its maximum when the worker looked. */
  lemma DroppedIffFull<T>(d: System<T>, w: Thread, x: T)
    requires SystemInv(d, w) && Enabled(d, w, Receive(x))
    ensures var r := Next(d, w, Receive(x));
      |r.arrivals| == |d.arrivals| + 1 && (!r.arrivals[|d.arrivals|].kept <==> |d.q.items| == d.q.maxSize)
  {
  }

  lemma {:induction false} DropsComeLate<T>(d: System<T>, w: Thread, events: seq<Event<T>>, last: System<T>)
    requires SystemInv(d, w) && IsRun(d, w, events, last) && DroppedLate(d.q.maxSize, d.arrivals)
    ensures DroppedLate(d.q.maxSize, last.arrivals)
    decreases |events|
  {
    hide SystemInv, Enabled, Next, DroppedLate;
    if events != [] {
      EventKeeps(d, w, events[0]);
      OneMoreArrival(d, w, events[0]);
      DropsComeLate(Next(d, w, events[0]), w, events[1..], last);
    }
  }

  lemma {:induction false} KeptAtMost<T>(a: seq<Arrival<T>>)
    ensures |Kept(a)| <= |a|
  {
    if a != [] {
      KeptAtMost(a[..|a| - 1]);
    }
  }

  /** In no run is a message dropped before the queue's maximum of messages was kept; so the first ones, up to
      that number, are never lost, whatever the consumers do. */
  lemma EarlyMessagesAreKept<T>(maxSize: nat, threads: set<Thread>, w: Thread, events: seq<Event<T>>, last: System<T>)
    requires w in threads && IsRun(System(New<T>(maxSize, threads), Receiving, []), w, events, last)
    ensures forall k | 0 <= k < |last.arrivals| && !last.arrivals[k].kept ::
      k >= maxSize && |Kept(last.arrivals[..k])| >= maxSize
  {
    hide SystemInv, IsRun, Kept;
    StartInv<T>(maxSize, threads, w);
    DropsComeLate(System(New<T>(maxSize, threads), Receiving, []), w, events, last);
    forall k | 0 <= k < |last.arrivals| && !last.arrivals[k].kept ensures k >= maxSize {
      KeptAtMost(last.arrivals[..k]);
    }
  }
}
