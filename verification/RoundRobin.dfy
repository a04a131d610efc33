/** One iteration of the event loop after `select`: all ready descriptors of one raised priority are served,
    then one ready low-priority descriptor, taken in turn. No low-priority descriptor waits for ever. */
module RoundRobin {
  import opened FdTables

  type Pair = (int, int)

  function PairOf(e: FdEvent): Pair {
    (e.fd, e.fdType)
  }

  // ---------------------------------------------------------------- the raised priorities

  /** Serving one raised priority: every ready entry while the count of ready descriptors lasts. The count
      that is left, and whether anything was served. */
  datatype Served = Served(numSet: int, treated: bool)

  function ServeAll(q: seq<FdEvent>, ready: set<Pair>, numSet: int): Served {
    if q == [] || numSet <= 0 then Served(numSet, false)
    else if PairOf(q[0]) in ready then Served(ServeAll(q[1..], ready, numSet - 1).numSet, true)
    else ServeAll(q[1..], ready, numSet)
  }

  /** High priority first, medium only if nothing was served there. */
  function ServeRaised(high: seq<FdEvent>, medium: seq<FdEvent>, ready: set<Pair>, numSet: int): int {
    var h := ServeAll(high, ready, numSet);
    if h.treated then h.numSet else ServeAll(medium, ready, h.numSet).numSet
  }

  function Pairs(q: seq<FdEvent>): set<Pair> {
    set e | e in q :: PairOf(e)
  }

  lemma FirstPairOnce(q: seq<FdEvent>)
    requires OneEach(q) && q != []
    ensures OneEach(q[1..]) && PairOf(q[0]) !in Pairs(q[1..]) && Pairs(q) == {PairOf(q[0])} + Pairs(q[1..])
  {
    var r := q[1..];
    assert q == [q[0]] + r;
    forall k | 0 <= k < |r| ensures PairOf(r[k]) != PairOf(q[0]) {
      assert q[k + 1] == r[k];
    }
  }

  lemma OneMoreReady(ready: set<Pair>, rest: set<Pair>, x: Pair)
    requires x !in rest
    ensures |ready * ({x} + rest)| == |ready * rest| + (if x in ready then 1 else 0)
  {
    if x in ready {
      assert ready * ({x} + rest) == {x} + ready * rest;
    } else {
      assert ready * ({x} + rest) == ready * rest;
    }
  }

  lemma PairsStep(q: seq<FdEvent>, ready: set<Pair>)
    requires OneEach(q) && q != []
    ensures OneEach(q[1..])
    ensures |ready * Pairs(q)| == |ready * Pairs(q[1..])| + (if PairOf(q[0]) in ready then 1 else 0)
  {
    hide Pairs, OneEach, PairOf;
    FirstPairOnce(q);
    OneMoreReady(ready, Pairs(q[1..]), PairOf(q[0]));
  }

  /** Each ready descriptor of the priority is counted off once, as far as the count reaches; the priority counts as
      treated if there was one. */
  lemma {:induction false} ServeAllCounts(q: seq<FdEvent>, ready: set<Pair>, numSet: int)
    requires OneEach(q)
    ensures var n, s := |ready * Pairs(q)|, ServeAll(q, ready, numSet);
      && s.numSet == (if numSet <= 0 then numSet else if n < numSet then numSet - n else 0)
      && (s.treated <==> numSet > 0 && n > 0)
  {
    hide Pairs, OneEach;
    if q == [] {
      NoPairs(ready);
    } else if numSet > 0 {
      PairsStep(q, ready);
      ServeAllCounts(q[1..], ready, if PairOf(q[0]) in ready then numSet - 1 else numSet);
    }
  }

  lemma NoPairs(ready: set<Pair>)
    ensures ready * Pairs([]) == {}
  {
  }

  /** As long as no pair is registered at two priorities, a ready low-priority pair leaves the count above
      zero for the low-priority scan. */
  lemma CountIsLeft(high: seq<FdEvent>, medium: seq<FdEvent>, ready: set<Pair>, x: Pair)
    requires OneEach(high) && OneEach(medium) && x in ready && x !in Pairs(high) && x !in Pairs(medium)
    ensures ServeRaised(high, medium, ready, |ready|) > 0
  {
    forall q | q == high || q == medium ensures |ready * Pairs(q)| < |ready| {
      ProperSubset(ready * Pairs(q), ready, x);
    }
    ServeAllCounts(high, ready, |ready|);
    ServeAllCounts(medium, ready, |ready|);
  }

  lemma ProperSubset<T>(a: set<T>, b: set<T>, x: T)
    requires a <= b && x in b && x !in a
    ensures |a| < |b|
  {
    assert b == a + (b - a);
    assert |b| == |a| + |b - a|;
    assert x in b - a;
  }

  // ---------------------------------------------------------------- low priority

  /** The position i steps after Round_robin. */
  function Turn(n: nat, roundRobin: nat, i: nat): (j: nat)
    requires n > 0
    ensures j < n
  {
    (i + roundRobin) % n
  }

  /** How many steps from Round_robin to position p. */
  function Distance(n: nat, roundRobin: nat, p: nat): (d: nat)
    requires p < n && roundRobin < n
    ensures d < n
  {
    if p >= roundRobin then p - roundRobin else p - roundRobin + n
  }

  /** The first ready entry in turn, from the i-th step on; the number of entries if there is none. */
  function Scan(q: seq<FdEvent>, roundRobin: nat, ready: set<Pair>, i: nat): (k: nat)
    requires i <= |q|
    ensures i <= k <= |q|
    decreases |q| - i
  {
    if i == |q| || PairOf(q[Turn(|q|, roundRobin, i)]) in ready then i else Scan(q, roundRobin, ready, i + 1)
  }

  lemma {:induction false} ScanIsFirst(q: seq<FdEvent>, roundRobin: nat, ready: set<Pair>, i: nat)
    requires i <= |q|
    ensures var k := Scan(q, roundRobin, ready, i);
      && (k < |q| ==> PairOf(q[Turn(|q|, roundRobin, k)]) in ready)
      && forall j | i <= j < k :: PairOf(q[Turn(|q|, roundRobin, j)]) !in ready
    decreases |q| - i
  {
    if i < |q| && PairOf(q[Turn(|q|, roundRobin, i)]) !in ready {
      ScanIsFirst(q, roundRobin, ready, i + 1);
    }
  }

  /** The position served, if any, and Round_robin after it. */
  datatype Low = Low(served: int, roundRobin: nat)

  function ServeLow(q: seq<FdEvent>, roundRobin: nat, ready: set<Pair>, numSet: int, threshold: int): Low {
    if numSet <= 0 || threshold != LOW_PRIORITY || q == [] then Low(-1, roundRobin)
    else
      var k := Scan(q, roundRobin, ready, 0);
      if k == |q| then Low(-1, roundRobin)
      else Low(Turn(|q|, roundRobin, k), (Turn(|q|, roundRobin, k) + 1) % |q|)
  }

  lemma SmallMod(x: nat, n: nat)
    requires x < n
    ensures x % n == x
  {
  }

  lemma WrapMod(x: nat, n: nat)
    requires 0 < n <= x < n + n
    ensures x % n == x - n
  {
    SmallMod(x - n, n);
    assert x == n * 1 + (x - n);
  }

  lemma TurnIs(n: nat, roundRobin: nat, i: nat)
    requires i < n && roundRobin < n
    ensures Turn(n, roundRobin, i) == if i + roundRobin < n then i + roundRobin else i + roundRobin - n
  {
    if i + roundRobin < n {
      SmallMod(i + roundRobin, n);
    } else {
      WrapMod(i + roundRobin, n);
    }
  }

  lemma TurnReaches(n: nat, roundRobin: nat, p: nat)
    requires p < n && roundRobin < n
    ensures Turn(n, roundRobin, Distance(n, roundRobin, p)) == p
  {
    TurnIs(n, roundRobin, Distance(n, roundRobin, p));
  }

  lemma NextIs(n: nat, j: nat)
    requires j < n
    ensures (j + 1) % n == if j + 1 < n then j + 1 else 0
  {
    if j + 1 < n {
      SmallMod(j + 1, n);
    }
  }

  /** A ready descriptor is served, or the one served instead brings its turn nearer. */
  lemma ServedOrNearer(q: seq<FdEvent>, roundRobin: nat, ready: set<Pair>, numSet: int, p: nat)
    requires p < |q| && roundRobin < |q| && PairOf(q[p]) in ready && numSet > 0
    ensures var l := ServeLow(q, roundRobin, ready, numSet, LOW_PRIORITY);
      && l.roundRobin < |q| && 0 <= l.served < |q| && PairOf(q[l.served]) in ready
      && (l.served != p ==> Distance(|q|, l.roundRobin, p) < Distance(|q|, roundRobin, p))
  {
    hide Turn;
    var n, d, k := |q|, Distance(|q|, roundRobin, p), Scan(q, roundRobin, ready, 0);
    TurnReaches(n, roundRobin, p);
    ScanIsFirst(q, roundRobin, ready, 0);
    assert k <= d;
    TurnIs(n, roundRobin, k);
    TurnIs(n, roundRobin, d);
    NextIs(n, Turn(n, roundRobin, k));
  }

  /** Nothing is served, and the turn stays where it is, exactly if the count is used up, the threshold is raised, or no
      descriptor is ready. */
  lemma NothingServedIff(q: seq<FdEvent>, roundRobin: nat, ready: set<Pair>, numSet: int, threshold: int)
    requires q != [] ==> roundRobin < |q|
    ensures var l := ServeLow(q, roundRobin, ready, numSet, threshold);
      && (l.served == -1 <==> numSet <= 0 || threshold != LOW_PRIORITY || forall e | e in q :: PairOf(e) !in ready)
      && (l.served == -1 ==> l.roundRobin == roundRobin)
  {
    hide Turn;
    ScanIsFirst(q, roundRobin, ready, 0);
    forall p | 0 <= p < |q| && PairOf(q[p]) in ready && numSet > 0 && threshold == LOW_PRIORITY
      ensures ServeLow(q, roundRobin, ready, numSet, threshold).served != -1
    {
      ServedOrNearer(q, roundRobin, ready, numSet, p);
    }
  }

  // ---------------------------------------------------------------- bounded waiting

  /** What select and the handlers leave for one iteration: the ready pairs, and the raised tables. */
  datatype Round = Round(ready: set<Pair>, high: seq<FdEvent>, medium: seq<FdEvent>)

  /** No pair of the low table is registered at another priority. */
  ghost predicate Apart(q: seq<FdEvent>, r: Round) {
    && OneEach(r.high) && OneEach(r.medium)
    && forall e | e in q :: PairOf(e) !in Pairs(r.high) && PairOf(e) !in Pairs(r.medium)
  }

  function Iterate(q: seq<FdEvent>, roundRobin: nat, r: Round): Low {
    ServeLow(q, roundRobin, r.ready, ServeRaised(r.high, r.medium, r.ready, |r.ready|), LOW_PRIORITY)
  }

  /** Position p is served in one of the rounds. */
  predicate ServedWithin(q: seq<FdEvent>, roundRobin: nat, rounds: seq<Round>, p: nat)
    decreases |rounds|
  {
    rounds != [] && (Iterate(q, roundRobin, rounds[0]).served == p
                     || ServedWithin(q, Iterate(q, roundRobin, rounds[0]).roundRobin, rounds[1..], p))
  }

  lemma {:induction false} ServedInTime(q: seq<FdEvent>, roundRobin: nat, rounds: seq<Round>, p: nat)
    requires p < |q| && roundRobin < |q| && |rounds| > Distance(|q|, roundRobin, p)
    requires forall r | r in rounds :: Apart(q, r) && PairOf(q[p]) in r.ready
    ensures ServedWithin(q, roundRobin, rounds, p)
    decreases |rounds|
  {
    var r := rounds[0];
    assert r in rounds && q[p] in q;
    CountIsLeft(r.high, r.medium, r.ready, PairOf(q[p]));
    ServedOrNearer(q, roundRobin, r.ready, ServeRaised(r.high, r.medium, r.ready, |r.ready|), p);
    hide ServeLow, ServeRaised, Apart;
    if Iterate(q, roundRobin, r).served != p {
      ServedInTime(q, Iterate(q, roundRobin, r).roundRobin, rounds[1..], p);
    }
  }

  /** Bounded waiting: with a stable low-priority table, a descriptor that stays ready is served within as
      many iterations as the table has entries. */
  lemma BoundedWaiting(q: seq<FdEvent>, roundRobin: nat, rounds: seq<Round>, p: nat)
    requires p < |q| && roundRobin < |q| && |rounds| == |q|
    requires forall r | r in rounds :: Apart(q, r) && PairOf(q[p]) in r.ready
    ensures ServedWithin(q, roundRobin, rounds, p)
  {
    ServedInTime(q, roundRobin, rounds, p);
  }

  /** The bound is met: with all of n descriptors ready all the time, the one just served waits for all
      the others, and is served in the n-th iteration and not before. */
  lemma {:induction false} FullTurn(q: seq<FdEvent>, roundRobin: nat, rounds: seq<Round>, p: nat)
    requires p < |q| && roundRobin < |q| && |rounds| <= Distance(|q|, roundRobin, p)
    requires forall r | r in rounds :: Apart(q, r) && Pairs(q) <= r.ready
    ensures !ServedWithin(q, roundRobin, rounds, p)
    decreases |rounds|
  {
    if rounds != [] {
      var r := rounds[0];
      assert r in rounds && q[roundRobin] in q;
      CountIsLeft(r.high, r.medium, r.ready, PairOf(q[roundRobin]));
      TurnIs(|q|, roundRobin, 0);
      NextIs(|q|, roundRobin);
      var l := Iterate(q, roundRobin, r);
      assert Scan(q, roundRobin, r.ready, 0) == 0;
      assert l == Low(roundRobin, (roundRobin + 1) % |q|);
      FullTurn(q, l.roundRobin, rounds[1..], p);
    }
  }

  // ---------------------------------------------------------------- the loop

  class LowScan {
    var roundRobin: nat

    constructor ()
      ensures roundRobin == 0
    {
      roundRobin := 0;
    }

    /** The low-priority scan of E_handle_events. */
    method Serve(q: seq<FdEvent>, ready: set<Pair>, numSet: int, threshold: int) returns (served: int)
      modifies this
      ensures Low(served, roundRobin) == ServeLow(q, old(roundRobin), ready, numSet, threshold)
    {
      served := -1;
      var i := 0;
      while i < |q| && numSet > 0 && threshold == LOW_PRIORITY
        invariant i <= |q| && roundRobin == old(roundRobin)
        invariant numSet > 0 && threshold == LOW_PRIORITY && q != [] ==>
          Scan(q, roundRobin, ready, 0) == Scan(q, roundRobin, ready, i)
      {
        var j := (i + roundRobin) % |q|;
        if PairOf(q[j]) in ready {
          roundRobin := (j + 1) % |q|;
          return j;
        }
        i := i + 1;
      }
    }
  }
}
