/** The synced set: the daemons whose group tables agree with this one's, kept as an array in
    configuration order. */
module SyncedSets {
  import opened Ordering
  import opened GroupTable
  import opened Configuration

  const MAX_PROCS_RING := 128

  /** The array lists distinct configured daemons in configuration order. */
  ghost predicate InConfOrder(conf: seq<ProcId>, s: seq<ProcId>) {
    && (forall p | p in s :: p in conf)
    && (forall i, j | 0 <= i < j < |s| :: Place(conf, s[i]) < Place(conf, s[j]))
  }

  /** G_add_to_synced_set on values: the merge of two ordered lists. */
  function Merge(conf: seq<ProcId>, a: seq<ProcId>, b: seq<ProcId>): (r: seq<ProcId>)
    ensures |r| == |a| + |b|
    decreases |a| + |b|
  {
    if a == [] then b
    else if b == [] then a
    else if Place(conf, a[0]) < Place(conf, b[0]) then [a[0]] + Merge(conf, a[1..], b)
    else [b[0]] + Merge(conf, a, b[1..])
  }

  lemma {:induction false} MergeHolds(conf: seq<ProcId>, a: seq<ProcId>, b: seq<ProcId>, p: ProcId)
    ensures p in Merge(conf, a, b) <==> p in a || p in b
    decreases |a| + |b|
  {
    if a != [] && b != [] {
      if Place(conf, a[0]) < Place(conf, b[0]) {
        MergeHolds(conf, a[1..], b, p);
        assert a == [a[0]] + a[1..];
      } else {
        MergeHolds(conf, a, b[1..], p);
        assert b == [b[0]] + b[1..];
      }
    }
  }

  lemma PlaceInjective(conf: seq<ProcId>, p: ProcId, q: ProcId)
    requires p in conf && Place(conf, p) == Place(conf, q)
    ensures p == q
  {
  }

  /** The merge of two disjoint ordered lists is their ordered union. */
  lemma {:induction false} MergeInOrder(conf: seq<ProcId>, a: seq<ProcId>, b: seq<ProcId>)
    requires InConfOrder(conf, a) && InConfOrder(conf, b) && Among(a) !! Among(b)
    ensures InConfOrder(conf, Merge(conf, a, b)) && Among(Merge(conf, a, b)) == Among(a) + Among(b)
    decreases |a| + |b|
  {
    hide InConfOrder, Among, Place;
    MergeAmong(conf, a, b);
    if a != [] && b != [] {
      HeadsDiffer(conf, a, b);
      if Place(conf, a[0]) < Place(conf, b[0]) {
        MergeStep(conf, a, b);
        MergeInOrder(conf, a[1..], b);
        SmallestFirst(conf, a[0], Merge(conf, a[1..], b));
      } else {
        MergeStep(conf, b, a);
        MergeInOrder(conf, a, b[1..]);
        SmallestFirst(conf, b[0], Merge(conf, a, b[1..]));
      }
    }
  }

  lemma MergeAmong(conf: seq<ProcId>, a: seq<ProcId>, b: seq<ProcId>)
    ensures Among(Merge(conf, a, b)) == Among(a) + Among(b)
  {
    hide Merge;
    forall p ensures p in Merge(conf, a, b) <==> p in a || p in b {
      MergeHolds(conf, a, b, p);
    }
  }

  lemma HeadsDiffer(conf: seq<ProcId>, a: seq<ProcId>, b: seq<ProcId>)
    requires InConfOrder(conf, a) && InConfOrder(conf, b) && Among(a) !! Among(b) && a != [] && b != []
    ensures a[0] in conf && b[0] in conf && Place(conf, a[0]) != Place(conf, b[0])
  {
    hide Place;
    assert a[0] in Among(a) && b[0] in Among(b);
    PlaceDiffers(conf, a[0], b[0]);
  }

  /** The smaller head comes before everything else of both lists. */
  lemma MergeStep(conf: seq<ProcId>, a: seq<ProcId>, b: seq<ProcId>)
    requires InConfOrder(conf, a) && InConfOrder(conf, b) && Among(a) !! Among(b) && a != [] && b != []
    requires Place(conf, a[0]) < Place(conf, b[0])
    ensures InConfOrder(conf, a[1..]) && Among(a[1..]) !! Among(b)
    ensures forall q | q in Merge(conf, a[1..], b) || q in Merge(conf, b, a[1..]) :: Place(conf, a[0]) < Place(conf, q)
  {
    assert Among(a[1..]) <= Among(a);
    forall q | q in Merge(conf, a[1..], b) || q in Merge(conf, b, a[1..])
      ensures Place(conf, a[0]) < Place(conf, q)
    {
      MergeHolds(conf, a[1..], b, q);
      MergeHolds(conf, b, a[1..], q);
      if q in b {
        var j :| 0 <= j < |b| && b[j] == q;
      } else {
        var i :| 0 <= i < |a[1..]| && a[1..][i] == q;
        assert a[i + 1] == q;
      }
    }
  }

  lemma PlaceDiffers(conf: seq<ProcId>, p: ProcId, q: ProcId)
    requires p in conf && p != q
    ensures Place(conf, p) != Place(conf, q)
  {
    if Place(conf, p) == Place(conf, q) {
      PlaceInjective(conf, p, q);
    }
  }

  lemma AfterFirst(conf: seq<ProcId>, p: ProcId, r: seq<ProcId>, i: nat, j: nat)
    requires i < j <= |r| && InConfOrder(conf, r)
    requires forall q | q in r :: Place(conf, p) < Place(conf, q)
    ensures Place(conf, ([p] + r)[i]) < Place(conf, ([p] + r)[j])
  {
    hide Place;
    assert r[j - 1] in r;
    if i > 0 {
      assert ([p] + r)[i] == r[i - 1];
    }
  }

  lemma SmallestFirst(conf: seq<ProcId>, p: ProcId, r: seq<ProcId>)
    requires p in conf && InConfOrder(conf, r)
    requires forall q | q in r :: Place(conf, p) < Place(conf, q)
    ensures InConfOrder(conf, [p] + r)
  {
    hide Place;
    var s := [p] + r;
    forall i, j | 0 <= i < j < |s| ensures Place(conf, s[i]) < Place(conf, s[j]) {
      AfterFirst(conf, p, r, i, j);
    }
  }

  /** G_update_synced_set_status on values: what is left are the members, in their old order. */
  lemma {:induction false} SelectKeepsOrder(conf: seq<ProcId>, s: seq<ProcId>, memb: set<ProcId>)
    requires InConfOrder(conf, s)
    ensures InConfOrder(conf, Select(s, memb)) && Among(Select(s, memb)) == Among(s) * memb
  {
    if s != [] {
      SelectKeepsOrder(conf, s[1..], memb);
      if s[0] in memb {
        forall q | q in Select(s[1..], memb) ensures Place(conf, s[0]) < Place(conf, q) {
          var j :| 0 <= j < |s[1..]| && s[1..][j] == q;
          assert s[j + 1] == q;
        }
        SmallestFirst(conf, s[0], Select(s[1..], memb));
      }
    }
  }

  /** An ordered list is determined by its members. */
  lemma {:induction false} OrderedIsUnique(conf: seq<ProcId>, a: seq<ProcId>, b: seq<ProcId>)
    requires InConfOrder(conf, a) && InConfOrder(conf, b) && Among(a) == Among(b)
    ensures a == b
  {
    if a == [] {
      assert forall i | 0 <= i < |b| :: b[i] in Among(b);
    } else {
      assert a[0] in Among(a) && a[0] in b;
      assert b[0] in Among(b) && b[0] in a;
      PlaceInjective(conf, a[0], b[0]);
      WithoutFirst(conf, a);
      WithoutFirst(conf, b);
      OrderedIsUnique(conf, a[1..], b[1..]);
      assert a == [a[0]] + a[1..] && b == [b[0]] + b[1..];
    }
  }

  lemma WithoutFirst(conf: seq<ProcId>, a: seq<ProcId>)
    requires InConfOrder(conf, a) && a != []
    ensures InConfOrder(conf, a[1..]) && Among(a[1..]) == Among(a) - {a[0]}
  {
    assert a[0] !in a[1..];
    assert a == [a[0]] + a[1..];
  }

  lemma MergeNothing(conf: seq<ProcId>, a: seq<ProcId>, b: seq<ProcId>)
    requires a == [] && b == []
    ensures Merge(conf, a, b) == []
  {
  }

  lemma MergeNext(conf: seq<ProcId>, a: seq<ProcId>, b: seq<ProcId>, i: nat, j: nat)
    requires i <= |a| && j <= |b| && (i < |a| || j < |b|)
    requires Among(a) !! Among(b) && forall p | p in a || p in b :: p in conf
    ensures i < |a| && j < |b| ==> Place(conf, a[i]) != Place(conf, b[j])
    ensures i < |a| && (j < |b| ==> Place(conf, a[i]) < Place(conf, b[j])) ==>
      forall done: seq<ProcId> :: done + Merge(conf, a[i..], b[j..])
          == (done + [a[i]]) + Merge(conf, a[i + 1..], b[j..])
    ensures j < |b| && (i < |a| ==> Place(conf, b[j]) < Place(conf, a[i])) ==>
      forall done: seq<ProcId> :: done + Merge(conf, a[i..], b[j..])
          == (done + [b[j]]) + Merge(conf, a[i..], b[j + 1..])
  {
    if i < |a| {
      assert a[i] in Among(a) && a[i..] == [a[i]] + a[i + 1..];
    }
    if j < |b| {
      assert b[j] in Among(b) && b[j..] == [b[j]] + b[j + 1..];
    }
    if i < |a| && j < |b| {
      PlaceDiffers(conf, a[i], b[j]);
    }
  }

  /** The merge loop of G_add_to_synced_set, with its cached lookups. */
  method MergeLists(conf: seq<ProcId>, a: seq<ProcId>, b: seq<ProcId>) returns (temp: seq<ProcId>)
    requires Among(a) !! Among(b) && forall p | p in a || p in b :: p in conf
    ensures temp == Merge(conf, a, b)
  {
    hide Merge, Place, Among;
    temp := [];
    var i, j := 0, 0;
    var left, right := -1, -1;
    while i < |a| || j < |b|
      invariant i <= |a| && j <= |b|
      invariant Merge(conf, a, b) == temp + Merge(conf, a[i..], b[j..])
      invariant left == -1 || (i < |a| && left == Place(conf, a[i]))
      invariant right == -1 || (j < |b| && right == Place(conf, b[j]))
      decreases |a| - i + |b| - j
    {
      if i < |a| && left == -1 {
        left := Place(conf, a[i]);
      }
      if j < |b| && right == -1 {
        right := Place(conf, b[j]);
      }
      MergeNext(conf, a, b, i, j);
      if (left < right && left != -1) || right == -1 {
        temp := temp + [a[i]];
        i := i + 1;
        left := -1;
      } else {
        temp := temp + [b[j]];
        j := j + 1;
        right := -1;
      }
    }
    MergeNothing(conf, a[i..], b[j..]);
  }

  /** Daemons that share a synced set agree on its leader: the member that comes first. */
  lemma LeaderIsFirst(conf: seq<ProcId>, s: seq<ProcId>, p: ProcId)
    requires InConfOrder(conf, s) && s != []
    ensures p == s[0] <==> p in s && forall q | q in s :: Place(conf, p) <= Place(conf, q)
  {
    if p in s && forall q | q in s :: Place(conf, p) <= Place(conf, q) {
      var i :| 0 <= i < |s| && s[i] == p;
      assert s[0] in s;
    }
  }

  lemma NoneSelected(memb: set<ProcId>)
    ensures Select([], memb) == []
  {
  }

  lemma {:induction false} SelectNext(s: seq<ProcId>, memb: set<ProcId>, i: nat)
    requires i < |s|
    ensures Select(s[..i + 1], memb) == Select(s[..i], memb) + (if s[i] in memb then [s[i]] else [])
  {
    if i > 0 {
      assert s[..i + 1][1..] == s[1..][..i] && s[..i][1..] == s[1..][..i - 1];
      SelectNext(s[1..], memb, i - 1);
    }
  }

  lemma {:induction false} SelectLosesNone(s: seq<ProcId>, memb: set<ProcId>)
    ensures |Select(s, memb)| == |s| <==> Among(s) <= memb
  {
    if s != [] {
      SelectLosesNone(s[1..], memb);
      assert Among(s) == {s[0]} + Among(s[1..]);
    }
  }

  /** The synced_set struct: a count and a fixed array. */
  class SyncedSet {
    var size: nat
    const procIds: array<ProcId>

    ghost predicate Valid()
      reads this
    {
      procIds.Length == MAX_PROCS_RING && size <= procIds.Length
    }

    ghost function Contents(): seq<ProcId>
      requires Valid()
      reads this, procIds
    {
      procIds[..size]
    }

    constructor (my: ProcId)
      ensures Valid() && fresh(procIds) && Contents() == [my]
    {
      size := 1;
      procIds := new ProcId[MAX_PROCS_RING](_ => my);
    }

    /** G_add_to_synced_set. The daemon aborts when an id is not configured or in both sets. */
    method Add(conf: seq<ProcId>, sset: seq<ProcId>)
      requires Valid() && InConfOrder(conf, Contents()) && InConfOrder(conf, sset)
      requires Among(Contents()) !! Among(sset) && |conf| <= MAX_PROCS_RING
      modifies this`size, procIds
      ensures Valid() && Contents() == Merge(conf, old(Contents()), sset)
    {
      ghost var mine := Contents();
      MergeInOrder(conf, mine, sset);
      OrderedFits(conf, Merge(conf, mine, sset));
      var temp := MergeLists(conf, procIds[..size], sset);
      forall k | 0 <= k < |temp| {
        procIds[k] := temp[k];
      }
      size := |temp|;
    }

    /** G_update_synced_set_status: filters in place, and says whether anyone was dropped. */
    method UpdateStatus(memb: set<ProcId>) returns (changed: bool)
      requires Valid()
      modifies this`size, procIds
      ensures Valid() && Contents() == Select(old(Contents()), memb)
      ensures changed <==> !(Among(old(Contents())) <= memb)
    {
      hide Select, Among;
      ghost var before := Contents();
      NoneSelected(memb);
      var j := 0;
      for i := 0 to size
        invariant j <= i && size == |before|
        invariant j == |Select(before[..i], memb)| && procIds[..j] == Select(before[..i], memb)
        invariant forall k | i <= k < size :: procIds[k] == before[k]
      {
        SelectNext(before, memb, i);
        if procIds[i] in memb {
          procIds[j] := procIds[i];
          j := j + 1;
        }
      }
      assert before[..size] == before;
      SelectLosesNone(before, memb);
      changed := j != size;
      size := j;
    }
  }

  lemma OrderedFits(conf: seq<ProcId>, s: seq<ProcId>)
    requires InConfOrder(conf, s)
    ensures |s| <= |conf|
  {
    AscendingSize(seq(|s|, i requires 0 <= i < |s| => Place(conf, s[i])), |conf|);
  }

  /** A strictly ascending list of numbers below n has at most n entries. */
  lemma {:induction false} AscendingSize(s: seq<int>, n: nat)
    requires forall i | 0 <= i < |s| :: 0 <= s[i] < n
    requires forall i, j | 0 <= i < j < |s| :: s[i] < s[j]
    ensures |s| <= n
  {
    if s != [] {
      var last := |s| - 1;
      assert 0 <= s[last] < n;
      forall i | 0 <= i < last ensures 0 <= s[..last][i] < n - 1 {
        assert s[i] < s[last];
      }
      AscendingSize(s[..last], n - 1);
    }
  }
}
