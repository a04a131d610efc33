/** A pool of preallocated slots: one thread takes and recycles, another gives back through a bounded
    queue. */
module NoLockPool {
  import opened Wrappers
  import opened Ordering

  /** The slots 0, 1, … of the allocated blocks, in order of allocation. */
  type Slot = nat

  function Upto(n: nat): (s: set<Slot>)
    ensures |s| == n && forall x: nat :: x in s <==> x < n
  {
    if n == 0 then {} else Upto(n - 1) + {n - 1}
  }

  /** Every one of the n allocated slots is in exactly one place, once: free, on its way back, or in use. */
  ghost predicate Partition(free: seq<Slot>, released: seq<Slot>, outstanding: set<Slot>, n: nat) {
    Distinct(free) && Distinct(released) && Apart(Among(free), Among(released), outstanding, Upto(n))
  }

  /** a, b and c are disjoint and make up all. */
  ghost predicate Apart(a: set<Slot>, b: set<Slot>, c: set<Slot>, all: set<Slot>) {
    a !! b && a !! c && b !! c && a + b + c == all
  }

  lemma Moves(a: set<Slot>, b: set<Slot>, c: set<Slot>, all: set<Slot>, x: Slot)
    requires Apart(a, b, c, all)
    ensures x in a ==> Apart(a - {x}, b, c + {x}, all) && x !in c
    ensures x in b ==> Apart(a, b - {x}, c + {x}, all) && x !in c
    ensures x in c ==> Apart(a + {x}, b, c - {x}, all) && Apart(a, b + {x}, c - {x}, all) && x !in a && x !in b
    ensures x !in all ==> Apart(a + {x}, b, c, all + {x}) && x !in a
  {
  }

  /** The three places add up to what was allocated. */
  lemma Conserved(free: seq<Slot>, released: seq<Slot>, outstanding: set<Slot>, n: nat)
    requires Partition(free, released, outstanding, n)
    ensures |free| + |released| + |outstanding| == n
  {
    hide Distinct, Among;
    DistinctSize(free);
    DistinctSize(released);
    assert |Among(free) + Among(released)| == |Among(free)| + |Among(released)|;
    assert |Among(free) + Among(released) + outstanding| == |Among(free) + Among(released)| + |outstanding|;
  }

  lemma FirstOff(a: seq<Slot>)
    requires a != [] && Distinct(a)
    ensures Distinct(a[1..]) && Among(a[1..]) == Among(a) - {a[0]} && a[0] in Among(a)
  {
    assert a == [a[0]] + a[1..];
  }

  lemma LastOn(a: seq<Slot>, x: Slot)
    requires Distinct(a) && x !in Among(a)
    ensures Distinct(a + [x]) && Among(a + [x]) == Among(a) + {x}
  {
  }

  lemma TakesFree(free: seq<Slot>, released: seq<Slot>, outstanding: set<Slot>, n: nat)
    requires Partition(free, released, outstanding, n) && free != []
    ensures Partition(free[1..], released, outstanding + {free[0]}, n) && free[0] !in outstanding
  {
    hide Distinct, Among, Upto, Apart;
    FirstOff(free);
    Moves(Among(free), Among(released), outstanding, Upto(n), free[0]);
  }

  lemma TakesReleased(free: seq<Slot>, released: seq<Slot>, outstanding: set<Slot>, n: nat)
    requires Partition(free, released, outstanding, n) && released != []
    ensures Partition(free, released[1..], outstanding + {released[0]}, n) && released[0] !in outstanding
  {
    hide Distinct, Among, Upto, Apart;
    FirstOff(released);
    Moves(Among(free), Among(released), outstanding, Upto(n), released[0]);
  }

  lemma GivesBack(free: seq<Slot>, released: seq<Slot>, outstanding: set<Slot>, n: nat, slot: Slot)
    requires Partition(free, released, outstanding, n) && slot in outstanding
    ensures Partition(free, released + [slot], outstanding - {slot}, n)
    ensures Partition(free + [slot], released, outstanding - {slot}, n)
  {
    hide Distinct, Among, Upto, Apart;
    Moves(Among(free), Among(released), outstanding, Upto(n), slot);
    LastOn(free, slot);
    LastOn(released, slot);
  }

  lemma Adds(free: seq<Slot>, released: seq<Slot>, outstanding: set<Slot>, n: nat)
    requires Partition(free, released, outstanding, n)
    ensures Partition(free + [n], released, outstanding, n + 1)
  {
    hide Distinct, Among, Apart;
    Moves(Among(free), Among(released), outstanding, Upto(n), n);
    LastOn(free, n);
    assert Upto(n + 1) == Upto(n) + {n};
  }

  /** Division as the compiler does it, towards zero. */
  function Quotient(a: int, b: int): int
    requires b > 0
  {
    if a >= 0 then a / b else -(-a / b)
  }

  class Pool {
    const maxSize: int
    const incr: int
    var trueSize: nat
    var free: seq<Slot>
    var released: seq<Slot>
    ghost var outstanding: set<Slot>

    /** A negative maximum allows no slot. */
    ghost function Limit(): nat {
      if maxSize < 0 then 0 else maxSize
    }

    ghost predicate Valid()
      reads this
    {
      trueSize <= Limit() && (maxSize > 0 ==> incr > 0) && Partition(free, released, outstanding, trueSize)
    }

    /** The first block has a tenth of the maximum at least, and the wanted number of slots where the maximum
        allows it. */
    constructor (maxSize: int, incr: int)
      ensures Valid() && outstanding == {} && released == [] && this.maxSize == maxSize
      ensures |free| == trueSize && (maxSize <= 0 ==> trueSize == 0)
      ensures maxSize > 0 ==> 10 * trueSize >= maxSize && (trueSize >= incr || trueSize == maxSize)
    {
      var i := if incr > maxSize then maxSize else incr;
      var minIncr := Quotient(maxSize + 9, 10);
      this.maxSize := maxSize;
      this.incr := if i > minIncr then i else minIncr;
      trueSize := 0;
      free := [];
      released := [];
      outstanding := {};
      new;
      assert Partition([], [], {}, 0);
      var grown := Grow();
    }

    /** grow: a block of new slots, as far as the maximum allows. */
    method Grow() returns (grown: bool)
      requires Valid()
      modifies this`trueSize, this`free
      ensures Valid() && (grown <==> old(trueSize) < maxSize)
      ensures !grown ==> trueSize == old(trueSize) && free == old(free)
      ensures grown ==> trueSize > old(trueSize) && |free| == |old(free)| + trueSize - old(trueSize)
      ensures old(free) <= free
      ensures grown ==> trueSize == maxSize || trueSize == old(trueSize) + incr
    {
      hide Partition;
      var myIncr := maxSize - trueSize;
      if myIncr <= 0 {
        return false;
      }
      if myIncr > incr {
        myIncr := incr;
      }
      AddSlots(myIncr);
      return true;
    }

    /** The slots of a new block go behind the free ones. */
    method AddSlots(n: nat)
      requires Partition(free, released, outstanding, trueSize)
      modifies this`trueSize, this`free
      ensures Partition(free, released, outstanding, trueSize)
      ensures trueSize == old(trueSize) + n && |free| == |old(free)| + n && old(free) <= free
    {
      hide Partition;
      for i := 0 to n
        invariant Partition(free, released, outstanding, trueSize)
        invariant trueSize == old(trueSize) + i && |free| == |old(free)| + i && old(free) <= free
      {
        Adds(free, released, outstanding, trueSize);
        free := free + [trueSize];
        trueSize := trueSize + 1;
      }
    }

    /** get: a free slot, else one given back, else one of a new block. It fails exactly if all slots of the
        maximum are in use. */
    method Get() returns (slot: Option<Slot>)
      requires Valid()
      modifies this
      ensures Valid()
      ensures slot.None? <==> |old(outstanding)| == Limit()
      ensures slot.None? ==> outstanding == old(outstanding) && trueSize == old(trueSize)
      ensures slot.Some? ==> slot.value !in old(outstanding) && outstanding == old(outstanding) + {slot.value}
      ensures slot.Some? && old(free) != [] ==> slot.value == old(free)[0]
      ensures slot.Some? && old(free) == [] && old(released) != [] ==> slot.value == old(released)[0]
    {
      hide Partition;
      Conserved(free, released, outstanding, trueSize);
      if free == [] {
        if released != [] {
          slot := Some(released[0]);
          TakesReleased(free, released, outstanding, trueSize);
          outstanding := outstanding + {released[0]};
          released := released[1..];
          return;
        }
        var grown := Grow();
        if !grown {
          return None;
        }
      }
      slot := Some(free[0]);
      TakesFree(free, released, outstanding, trueSize);
      outstanding := outstanding + {free[0]};
      free := free[1..];
    }

    /** release, by the thread that has the slot. The queue always has room for it. */
    method Release(slot: Slot)
      requires Valid() && slot in outstanding
      modifies this
      ensures Valid() && released == old(released) + [slot] && |released| <= maxSize
      ensures outstanding == old(outstanding) - {slot} && free == old(free) && trueSize == old(trueSize)
    {
      hide Partition;
      GivesBack(free, released, outstanding, trueSize, slot);
      released := released + [slot];
      outstanding := outstanding - {slot};
      Conserved(free, released, outstanding, trueSize);
    }

    /** recycle, by the owner of the pool. */
    method Recycle(slot: Slot)
      requires Valid() && slot in outstanding
      modifies this
      ensures Valid() && free == old(free) + [slot]
      ensures outstanding == old(outstanding) - {slot} && released == old(released) && trueSize == old(trueSize)
    {
      hide Partition;
      GivesBack(free, released, outstanding, trueSize, slot);
      free := free + [slot];
      outstanding := outstanding - {slot};
    }
  }
}
