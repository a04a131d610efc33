/** The virtual-synchrony part of a membership message: which members are listed together. Daemons are
    walked by membership id, partitioned ones last, and a set takes in daemons as long as they carry the
    same known id; a member that just joined is left out there and listed alone at the end. */
module VsSets {
  import opened Wire
  import opened Wrappers
  import opened GroupTable
  import opened GroupsCodec

  datatype VsSet = VsSet(members: seq<Name>)

  // ---------------------------------------------------------------- the order of the daemons

  /** G_compare_memb_ids(a, b) < 0: an unknown id compares after any other. */
  predicate IdBefore(a: MembId, b: MembId) {
    if Unknown(a) then false
    else if Unknown(b) then true
    else a.proc < b.proc || (a.proc == b.proc && a.time < b.time)
  }

  /** Ids that G_compare_memb_ids takes for equal. */
  predicate IdLevel(a: MembId, b: MembId) {
    a == b || (Unknown(a) && Unknown(b))
  }

  lemma IdsCompare(a: MembId, b: MembId, c: MembId)
    ensures IdBefore(a, b) || IdBefore(b, a) || IdLevel(a, b)
    ensures !(IdBefore(a, b) && IdBefore(b, a)) && !(IdBefore(a, b) && IdLevel(a, b))
    ensures IdBefore(a, b) && IdBefore(b, c) ==> IdBefore(a, c)
    ensures IdBefore(a, b) && IdLevel(b, c) ==> IdBefore(a, c)
    ensures IdLevel(a, b) && IdBefore(b, c) ==> IdBefore(a, c)
  {
  }

  /** Puts d behind the daemons that do not come after it. */
  function Insert(d: DaemonRec, ds: seq<DaemonRec>): (r: seq<DaemonRec>)
    ensures |r| == |ds| + 1
  {
    if ds == [] || IdBefore(d.memb, ds[0].memb) then [d] + ds else [ds[0]] + Insert(d, ds[1..])
  }

  /** The skip list ordered by membership id and then by configuration order, of daemons given in
      configuration order. */
  function ByMemb(ds: seq<DaemonRec>): (r: seq<DaemonRec>)
    ensures |r| == |ds|
  {
    if ds == [] then [] else Insert(ds[|ds| - 1], ByMemb(ds[..|ds| - 1]))
  }

  ghost predicate Ordered(ds: seq<DaemonRec>) {
    forall i, j | 0 <= i < j < |ds| :: !IdBefore(ds[j].memb, ds[i].memb)
  }

  lemma {:induction false} InsertHolds(d: DaemonRec, ds: seq<DaemonRec>)
    ensures multiset(Insert(d, ds)) == multiset(ds) + multiset{d}
  {
    if ds != [] && !IdBefore(d.memb, ds[0].memb) {
      InsertHolds(d, ds[1..]);
      assert ds == [ds[0]] + ds[1..];
    }
  }

  lemma {:induction false} InsertKeepsOrder(d: DaemonRec, ds: seq<DaemonRec>)
    requires Ordered(ds)
    ensures Ordered(Insert(d, ds))
  {
    if ds == [] {
    } else if IdBefore(d.memb, ds[0].memb) {
      forall j | 0 <= j < |ds| ensures !IdBefore(ds[j].memb, d.memb) {
        IdsCompare(d.memb, ds[0].memb, ds[j].memb);
        IdsCompare(ds[j].memb, d.memb, ds[0].memb);
        assert j == 0 || !IdBefore(ds[j].memb, ds[0].memb);
      }
    } else {
      InsertKeepsOrder(d, ds[1..]);
      InsertHolds(d, ds[1..]);
      forall x | x in Insert(d, ds[1..]) ensures !IdBefore(x.memb, ds[0].memb) {
        assert x in multiset(Insert(d, ds[1..]));
        if x != d {
          assert x in ds[1..];
        }
      }
    }
  }

  lemma {:induction false} ByMembIsOrdered(ds: seq<DaemonRec>)
    ensures Ordered(ByMemb(ds)) && multiset(ByMemb(ds)) == multiset(ds)
  {
    if ds != [] {
      var front, d := ds[..|ds| - 1], ds[|ds| - 1];
      ByMembIsOrdered(front);
      InsertKeepsOrder(d, ByMemb(front));
      InsertHolds(d, ByMemb(front));
      assert ds == front + [d];
    }
  }

  // ---------------------------------------------------------------- the sets

  /** What the walk lists of one daemon's members, and whether the joiner has been met by then. */
  datatype Listing = Listing(names: seq<Name>, found: bool)

  function Listed(ms: seq<Name>, joiner: Option<Name>, found: bool): (l: Listing)
    ensures |l.names| <= |ms|
    decreases |ms|
  {
    if ms == [] then Listing([], found)
    else if joiner == Some(ms[0]) && !found then Listing(ms[1..], true)
    else
      var rest := Listed(ms[1..], joiner, found);
      Listing([ms[0]] + rest.names, rest.found)
  }

  /** The i-th daemon of the walk opens a new set. */
  predicate Opens(ds: seq<DaemonRec>, i: nat)
    requires i < |ds|
  {
    i == 0 || Unknown(ds[i - 1].memb) || ds[i - 1].memb != ds[i].memb
  }

  /** The number of the set that the i-th daemon is listed in. */
  function SetOf(ds: seq<DaemonRec>, i: nat): nat
    requires i < |ds|
  {
    if i == 0 then 0 else SetOf(ds, i - 1) + (if Opens(ds, i) then 1 else 0)
  }

  datatype Walked = Walked(sets: seq<VsSet>, found: bool)

  /** The walk over the first n daemons. */
  function WalkSets(ds: seq<DaemonRec>, joiner: Option<Name>, n: nat): (w: Walked)
    requires n <= |ds|
    ensures |w.sets| == if n == 0 then 0 else SetOf(ds, n - 1) + 1
  {
    if n == 0 then Walked([], false)
    else
      var w := WalkSets(ds, joiner, n - 1);
      var l := Listed(ds[n - 1].members, joiner, w.found);
      if Opens(ds, n - 1) then Walked(w.sets + [VsSet(l.names)], l.found)
      else
        var last := |w.sets| - 1;
        Walked(w.sets[last := VsSet(w.sets[last].members + l.names)], l.found)
  }

  /** All sets: those of the daemons, and the joiner's own at the end. */
  function AllSets(ds: seq<DaemonRec>, joiner: Option<Name>): (r: seq<VsSet>) {
    WalkSets(ds, joiner, |ds|).sets + (match joiner case Some(j) => [VsSet([j])] case None => [])
  }

  // ---------------------------------------------------------------- who shares a set with whom

  lemma {:induction false} SetsAscend(ds: seq<DaemonRec>, i: nat, j: nat)
    requires i <= j < |ds|
    ensures SetOf(ds, i) <= SetOf(ds, j)
    ensures SetOf(ds, i) == SetOf(ds, j) <==> forall k | i < k <= j :: !Opens(ds, k)
    decreases j - i
  {
    if i < j {
      SetsAscend(ds, i, j - 1);
    }
  }

  lemma {:induction false} SameIdThroughout(ds: seq<DaemonRec>, i: nat, j: nat)
    requires i < j < |ds| && forall k | i < k <= j :: !Opens(ds, k)
    ensures ds[i].memb == ds[j].memb && !Unknown(ds[i].memb)
    decreases j - i
  {
    assert !Opens(ds, j);
    if i < j - 1 {
      SameIdThroughout(ds, i, j - 1);
    }
  }

  lemma SameIdOpensNone(ds: seq<DaemonRec>, i: nat, j: nat)
    requires Ordered(ds) && i <= j < |ds| && ds[i].memb == ds[j].memb && !Unknown(ds[i].memb)
    ensures forall k | i < k <= j :: !Opens(ds, k)
  {
    hide Ordered;
    forall k | i < k <= j ensures !Opens(ds, k) {
      Between(ds, i, k - 1, j);
      Between(ds, i, k, j);
    }
  }

  /** Two daemons are listed together exactly if they are the same or carry the same known id. */
  lemma ListedTogether(ds: seq<DaemonRec>, i: nat, j: nat)
    requires Ordered(ds) && i <= j < |ds|
    ensures SetOf(ds, i) == SetOf(ds, j) <==> i == j || (ds[i].memb == ds[j].memb && !Unknown(ds[i].memb))
  {
    hide Ordered, Opens, SetOf, Unknown;
    SetsAscend(ds, i, j);
    if i < j {
      if forall k | i < k <= j :: !Opens(ds, k) {
        SameIdThroughout(ds, i, j);
      }
      if ds[i].memb == ds[j].memb && !Unknown(ds[i].memb) {
        SameIdOpensNone(ds, i, j);
      }
    }
  }

  lemma Between(ds: seq<DaemonRec>, i: nat, k: nat, j: nat)
    requires Ordered(ds) && i <= k <= j < |ds| && ds[i].memb == ds[j].memb && !Unknown(ds[i].memb)
    ensures ds[k].memb == ds[i].memb
  {
    IdsCompare(ds[i].memb, ds[k].memb, ds[j].memb);
    assert i == k || !IdBefore(ds[k].memb, ds[i].memb);
    assert k == j || !IdBefore(ds[j].memb, ds[k].memb);
  }

  // ---------------------------------------------------------------- everybody once

  function Flat(sets: seq<VsSet>): (r: seq<Name>) {
    if sets == [] then [] else Flat(sets[..|sets| - 1]) + sets[|sets| - 1].members
  }

  /** The members of ds, daemon after daemon. */
  function AllNames(ds: seq<DaemonRec>): (r: seq<Name>) {
    if ds == [] then [] else ds[0].members + AllNames(ds[1..])
  }

  lemma {:induction false} AllNamesConcat(a: seq<DaemonRec>, b: seq<DaemonRec>)
    ensures AllNames(a + b) == AllNames(a) + AllNames(b)
  {
    if a == [] {
      assert a + b == b;
    } else {
      assert (a + b)[1..] == a[1..] + b;
      AllNamesConcat(a[1..], b);
    }
  }

  ghost function One(joiner: Option<Name>, here: bool): multiset<Name> {
    if here && joiner.Some? then multiset{joiner.value} else multiset{}
  }

  lemma {:induction false} ListedIs(ms: seq<Name>, joiner: Option<Name>, found: bool)
    ensures var l := Listed(ms, joiner, found);
      && multiset(l.names) + One(joiner, !found && l.found) == multiset(ms)
      && (l.found <==> found || (joiner.Some? && joiner.value in ms))
    decreases |ms|
  {
    if ms != [] {
      assert ms == [ms[0]] + ms[1..];
      if !(joiner == Some(ms[0]) && !found) {
        ListedIs(ms[1..], joiner, found);
      }
    }
  }

  lemma FlatSnoc(sets: seq<VsSet>, x: VsSet)
    ensures Flat(sets + [x]) == Flat(sets) + x.members
  {
    assert (sets + [x])[..|sets|] == sets;
  }

  lemma FlatGrow(sets: seq<VsSet>, names: seq<Name>)
    requires sets != []
    ensures var last := |sets| - 1; Flat(sets[last := VsSet(sets[last].members + names)]) == Flat(sets) + names
  {
    var last := |sets| - 1;
    var r := sets[last := VsSet(sets[last].members + names)];
    assert r[..last] == sets[..last];
  }

  lemma WalkStep(ds: seq<DaemonRec>, joiner: Option<Name>, n: nat)
    requires 0 < n <= |ds|
    ensures var w, r := WalkSets(ds, joiner, n - 1), WalkSets(ds, joiner, n);
      var l := Listed(ds[n - 1].members, joiner, w.found);
      Flat(r.sets) == Flat(w.sets) + l.names && r.found == l.found
  {
    hide Listed;
    var w := WalkSets(ds, joiner, n - 1);
    var l := Listed(ds[n - 1].members, joiner, w.found);
    if Opens(ds, n - 1) {
      FlatSnoc(w.sets, VsSet(l.names));
    } else {
      FlatGrow(w.sets, l.names);
    }
  }

  /** After n daemons the sets list exactly their members, but for the joiner if it was met. */
  lemma {:induction false} WalkLists(ds: seq<DaemonRec>, joiner: Option<Name>, n: nat)
    requires n <= |ds|
    ensures var w := WalkSets(ds, joiner, n);
      && multiset(Flat(w.sets)) + One(joiner, w.found) == multiset(AllNames(ds[..n]))
      && (w.found <==> joiner.Some? && joiner.value in AllNames(ds[..n]))
  {
    hide Opens, Listed, WalkSets, AllNames, Flat, One, SetOf;
    if n == 0 {
      NothingWalked(ds, joiner);
    } else {
      WalkLists(ds, joiner, n - 1);
      WalkStep(ds, joiner, n);
      NamesStep(ds, n);
      var w, ms := WalkSets(ds, joiner, n - 1), ds[n - 1].members;
      var l := Listed(ms, joiner, w.found);
      ListedIs(ms, joiner, w.found);
      Accounts(multiset(Flat(w.sets)), multiset(l.names), multiset(AllNames(ds[..n - 1])), multiset(ms), joiner,
               w.found, l.found);
    }
  }

  lemma NothingWalked(ds: seq<DaemonRec>, joiner: Option<Name>)
    ensures WalkSets(ds, joiner, 0) == Walked([], false) && Flat([]) == [] && AllNames(ds[..0]) == []
    ensures One(joiner, false) == multiset{}
  {
  }

  lemma NamesStep(ds: seq<DaemonRec>, n: nat)
    requires 0 < n <= |ds|
    ensures AllNames(ds[..n]) == AllNames(ds[..n - 1]) + ds[n - 1].members
  {
    AllNamesConcat(ds[..n - 1], [ds[n - 1]]);
    assert ds[..n] == ds[..n - 1] + [ds[n - 1]];
    assert AllNames([ds[n - 1]]) == ds[n - 1].members;
  }

  lemma Accounts(x: multiset<Name>, y: multiset<Name>, a: multiset<Name>, b: multiset<Name>, joiner: Option<Name>,
                 f: bool, g: bool)
    requires x + One(joiner, f) == a && y + One(joiner, !f && g) == b && (f ==> g)
    ensures x + y + One(joiner, g) == a + b
  {
  }

  /** The sets together list every member of every daemon exactly as often as it is one: nobody is lost,
      nobody listed twice. */
  lemma SetsListAll(ds: seq<DaemonRec>, joiner: Option<Name>)
    requires joiner.Some? ==> joiner.value in AllNames(ds)
    ensures multiset(Flat(AllSets(ds, joiner))) == multiset(AllNames(ds))
    ensures |Flat(AllSets(ds, joiner))| == |AllNames(ds)|
  {
    WalkLists(ds, joiner, |ds|);
    assert ds[..|ds|] == ds;
    var sets := WalkSets(ds, joiner, |ds|).sets;
    if joiner.Some? {
      FlatSnoc(sets, VsSet([joiner.value]));
    } else {
      assert sets + [] == sets;
    }
    assert |multiset(Flat(AllSets(ds, joiner)))| == |multiset(AllNames(ds))|;
  }

  // ---------------------------------------------------------------- in which set

  lemma {:induction false} ListedUnlessJoiner(ms: seq<Name>, joiner: Option<Name>, found: bool, m: Name)
    requires joiner != Some(m)
    ensures m in Listed(ms, joiner, found).names <==> m in ms
    decreases |ms|
  {
    if ms != [] {
      assert ms == [ms[0]] + ms[1..];
      if !(joiner == Some(ms[0]) && !found) {
        ListedUnlessJoiner(ms[1..], joiner, found, m);
      }
    }
  }

  lemma ListedStep(ds: seq<DaemonRec>, joiner: Option<Name>, n: nat, k: nat, m: Name)
    requires 0 < n <= |ds| && k < |WalkSets(ds, joiner, n).sets| && joiner != Some(m)
    ensures var before := WalkSets(ds, joiner, n - 1).sets;
      (m in WalkSets(ds, joiner, n).sets[k].members) ==
      ((k < |before| && m in before[k].members) || (k == SetOf(ds, n - 1) && m in ds[n - 1].members))
  {
    hide Listed;
    ListedUnlessJoiner(ds[n - 1].members, joiner, WalkSets(ds, joiner, n - 1).found, m);
  }

  /** A member other than the joiner is listed in the set of its daemon and in no other. */
  lemma {:induction false} ListedInItsSet(ds: seq<DaemonRec>, joiner: Option<Name>, n: nat, k: nat, m: Name)
    requires n <= |ds| && k < |WalkSets(ds, joiner, n).sets| && joiner != Some(m)
    ensures m in WalkSets(ds, joiner, n).sets[k].members
      <==> exists i :: 0 <= i < n && SetOf(ds, i) == k && m in ds[i].members
  {
    hide Listed, WalkSets, SetOf;
    ListedStep(ds, joiner, n, k, m);
    if k < |WalkSets(ds, joiner, n - 1).sets| {
      ListedInItsSet(ds, joiner, n - 1, k, m);
    } else {
      forall i | 0 <= i < n - 1 ensures SetOf(ds, i) < k {
        SetsAscend(ds, i, n - 2);
      }
    }
  }
}
