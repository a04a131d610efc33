/** The membership message sent after a network event: the members, the group id, and the virtual-synchrony
    sets, written into one buffer with sizes, counts and the receiver's offset patched in behind. */
module VsMessage {
  import opened Sequences
  import opened Wire
  import opened Wrappers
  import opened Ordering
  import opened GroupTable
  import opened GroupsCodec
  import opened GroupsTransfer
  import opened VsSets

  // ---------------------------------------------------------------- the layout

  function SetSize(s: VsSet): nat {
    4 + 32 * |s.members|
  }

  function PutSet(s: VsSet): (b: seq<byte>)
    ensures |b| == SetSize(s)
  {
    Put32(|s.members|) + PutNames(s.members)
  }

  /** The byte offset of the k-th set in the region of the sets. */
  function Offset(sets: seq<VsSet>, k: nat): nat
    requires k <= |sets|
  {
    if k == 0 then 0 else Offset(sets, k - 1) + SetSize(sets[k - 1])
  }

  function PutSets(sets: seq<VsSet>): (b: seq<byte>)
    ensures |b| == Offset(sets, |sets|)
    decreases |sets|
  {
    if sets == [] then []
    else
      OffsetPrefix(sets, |sets| - 1, |sets| - 1);
      PutSets(sets[..|sets| - 1]) + PutSet(sets[|sets| - 1])
  }

  lemma {:induction false} OffsetPrefix(sets: seq<VsSet>, n: nat, k: nat)
    requires k <= n <= |sets|
    ensures Offset(sets[..n], k) == Offset(sets, k)
  {
    if k > 0 {
      OffsetPrefix(sets, n, k - 1);
    }
  }

  /** The data of the message behind the group names: header_ptr->data_len bytes. */
  function PutData(id: GroupId, sets: seq<VsSet>, offset: nat): (b: seq<byte>) {
    PutGroupId(id) + Put32(|sets|) + Put32(offset) + PutSets(sets)
  }

  // ---------------------------------------------------------------- what a receiver finds

  /** A receiver reads a set's size and that many names. */
  function GetSet(b: seq<byte>, at: nat): (r: Parsed<VsSet>)
  {
    if at + 4 > |b| then Beyond
    else
      var n := Get32u(b[at..at + 4]);
      if at + 4 + 32 * n > |b| then Beyond else Parsed(VsSet(GetNames(b, at + 4, n)), at + 4 + 32 * n)
  }

  predicate SetsFit(sets: seq<VsSet>) {
    forall s | s in sets :: |s.members| < 0x1_0000_0000
  }

  lemma HasMore(b: seq<byte>, c: seq<byte>, at: nat, e: seq<byte>)
    requires Has(b, at, e)
    ensures Has(b + c, at, e)
  {
    assert (b + c)[at..at + |e|] == b[at..at + |e|];
  }

  lemma HasLast(b: seq<byte>, e: seq<byte>)
    ensures Has(b + e, |b|, e)
  {
  }

  lemma {:induction false} SetsHave(sets: seq<VsSet>, k: nat)
    requires k < |sets|
    ensures Has(PutSets(sets), Offset(sets, k), PutSet(sets[k]))
    decreases |sets|
  {
    hide PutSet, Has;
    var front, last := sets[..|sets| - 1], sets[|sets| - 1];
    OffsetPrefix(sets, |front|, k);
    if k < |front| {
      SetsHave(front, k);
      HasMore(PutSets(front), PutSet(last), Offset(sets, k), PutSet(sets[k]));
    } else {
      HasLast(PutSets(front), PutSet(last));
    }
  }

  /** At a set's offset the receiver reads exactly that set. */
  lemma OffsetLocates(sets: seq<VsSet>, k: nat)
    requires k < |sets| && SetsFit(sets)
    ensures GetSet(PutSets(sets), Offset(sets, k)) == Parsed(sets[k], Offset(sets, k + 1))
  {
    hide PutSets, Offset, PutNames, GetNames;
    var b, at := PutSets(sets), Offset(sets, k);
    SetsHave(sets, k);
    HasParts(b, at, Put32(|sets[k].members|), PutNames(sets[k].members));
    assert sets[k] in sets;
    RoundTrip32u(|sets[k].members|);
    ReadNames(b, at + 4, sets[k].members);
    SetEnds(sets, k);
  }

  lemma SetEnds(sets: seq<VsSet>, k: nat)
    requires k < |sets|
    ensures Offset(sets, k + 1) == Offset(sets, k) + SetSize(sets[k])
  {
  }

  /** The offset that the message to a local joiner is patched to, computed from the length of the data,
      is the offset of the last set, the joiner's own. */
  lemma JoinerOffset(id: GroupId, sets: seq<VsSet>, offset: nat, j: Name)
    requires sets != [] && sets[|sets| - 1] == VsSet([j])
    ensures |PutData(id, sets, offset)| - (4 + MAX_GROUP_NAME) - (12 + 2 * 4) == Offset(sets, |sets| - 1)
  {
    SetEnds(sets, |sets| - 1);
  }

  // ---------------------------------------------------------------- writing

  lemma PutSetsSnoc(front: seq<VsSet>, s: VsSet)
    ensures PutSets(front + [s]) == PutSets(front) + (Put32(|s.members|) + PutNames(s.members))
    ensures Offset(front + [s], |front|) == |PutSets(front)|
  {
    assert (front + [s])[..|front|] == front;
    OffsetPrefix(front + [s], |front|, |front|);
  }

  lemma {:induction false} PutNamesConcat(a: seq<Name>, b: seq<Name>)
    ensures PutNames(a + b) == PutNames(a) + PutNames(b)
  {
    if a == [] {
      assert a + b == b;
    } else {
      assert (a + b)[1..] == a[1..] + b;
      PutNamesConcat(a[1..], b);
    }
  }

  lemma ListedNext(ms: seq<Name>, joiner: Option<Name>, found: bool, k: nat)
    requires k < |ms|
    ensures Listed(ms[k..], joiner, found) ==
      if joiner == Some(ms[k]) && !found then Listing(ms[k + 1..], true)
      else Listing([ms[k]] + Listed(ms[k + 1..], joiner, found).names, Listed(ms[k + 1..], joiner, found).found)
  {
    assert ms[k..][1..] == ms[k + 1..];
  }

  lemma {:induction false} ListedAfter(ms: seq<Name>, joiner: Option<Name>)
    ensures Listed(ms, joiner, true) == Listing(ms, true)
  {
    if ms != [] {
      ListedAfter(ms[1..], joiner);
    }
  }

  /** The loop over one daemon's members: the joiner is passed over the first time it is met. */
  method ListMembers(buf: array<byte>, n: nat, ms: seq<Name>, joiner: Option<Name>, found0: bool)
      returns (end: nat, found: bool, count: nat)
    requires n + 32 * |ms| <= buf.Length
    modifies buf
    ensures var l := Listed(ms, joiner, found0);
      && found == l.found && count == |l.names| && end == n + 32 * count && end <= buf.Length
      && buf[..end] == old(buf[..n]) + PutNames(l.names)
  {
    hide PutNames, Listed;
    ghost var names := [];
    end, found, count := n, found0, 0;
    NothingListed(ms, joiner, found0);
    for k := 0 to |ms|
      invariant count == |names| <= k && end == n + 32 * count
      invariant buf[..end] == old(buf[..n]) + PutNames(names)
      invariant names + Listed(ms[k..], joiner, found).names == Listed(ms, joiner, found0).names
      invariant Listed(ms[k..], joiner, found).found == Listed(ms, joiner, found0).found
    {
      ListedNext(ms, joiner, found, k);
      if joiner == Some(ms[k]) && !found {
        found := true;
        ListedAfter(ms[k + 1..], joiner);
      } else {
        end := Append(buf, end, ms[k]);
        PutNamesSnoc(names, ms[k]);
        Regroup(names, [ms[k]], Listed(ms[k + 1..], joiner, found).names);
        names := names + [ms[k]];
        count := count + 1;
      }
    }
    ListedNothing(ms, joiner, found);
    assert names + [] == names;
  }

  lemma NothingListed(ms: seq<Name>, joiner: Option<Name>, found: bool)
    ensures ms[0..] == ms && PutNames([]) == []
  {
  }

  lemma ListedNothing(ms: seq<Name>, joiner: Option<Name>, found: bool)
    ensures Listed(ms[|ms|..], joiner, found) == Listing([], found)
  {
  }

  /** One daemon's members join the current set, whose size is then updated. */
  method ListDaemon(buf: array<byte>, n: nat, curPtr: nat, curSize0: nat, ms: seq<Name>, joiner: Option<Name>,
                    found0: bool,
                    ghost head: seq<byte>, ghost front: seq<VsSet>, ghost size4: seq<byte>, ghost cur: seq<Name>)
      returns (end: nat, found: bool, curSize: nat)
    requires n + 32 * |ms| <= buf.Length && curSize0 == |cur| && |size4| == 4
    requires buf[..n] == head + PutSets(front) + size4 + PutNames(cur) && n <= buf.Length
    requires curPtr == |head + PutSets(front)|
    modifies buf
    ensures var l := Listed(ms, joiner, found0);
      && found == l.found && curSize == |cur + l.names| && end == n + 32 * |l.names| && end <= buf.Length
      && buf[..end] == head + PutSets(front + [VsSet(cur + l.names)])
  {
    hide PutNames, Listed, PutSets, Put32;
    var count: nat;
    end, found, count := ListMembers(buf, n, ms, joiner, found0);
    ghost var names := Listed(ms, joiner, found0).names;
    curSize := curSize0 + count;
    ghost var h := head + PutSets(front);
    PutNamesConcat(cur, names);
    Regroup(h + size4, PutNames(cur), PutNames(names));
    Behind(buf, end, h + size4, PutNames(cur + names));
    Regroup(h, size4, PutNames(cur + names));
    Behind(buf, end, h, size4 + PutNames(cur + names));
    Patch(buf, curPtr, Put32(curSize), PutNames(cur + names));
    PutSetsSnoc(front, VsSet(cur + names));
    Regroup(head, PutSets(front), Put32(curSize) + PutNames(cur + names));
    Regroup(h, Put32(curSize), PutNames(cur + names));
  }

  /** Room for the daemons from the i-th on. */
  function Room(ds: seq<DaemonRec>, i: nat): nat
    requires i <= |ds|
    decreases |ds| - i
  {
    if i == |ds| then 0 else 4 + 32 * |ds[i].members| + Room(ds, i + 1)
  }

  /** The current set: where it starts in the region, and what is in it. */
  ghost predicate CurrentSet(sets: seq<VsSet>, start: int, size: nat) {
    sets != [] && start == Offset(sets, |sets| - 1) && size == |sets[|sets| - 1].members|
  }

  lemma StepOpens(ds: seq<DaemonRec>, joiner: Option<Name>, i: nat)
    requires i < |ds| && Opens(ds, i)
    ensures var w := WalkSets(ds, joiner, i); var l := Listed(ds[i].members, joiner, w.found);
      WalkSets(ds, joiner, i + 1) == Walked(w.sets + [VsSet([] + l.names)], l.found)
  {
    hide Listed;
    assert [] + Listed(ds[i].members, joiner, WalkSets(ds, joiner, i).found).names
        == Listed(ds[i].members, joiner, WalkSets(ds, joiner, i).found).names;
  }

  lemma StepExtends(ds: seq<DaemonRec>, joiner: Option<Name>, i: nat)
    requires i < |ds| && !Opens(ds, i)
    ensures var w := WalkSets(ds, joiner, i); var l := Listed(ds[i].members, joiner, w.found);
      && w.sets != [] && w.sets == w.sets[..|w.sets| - 1] + [w.sets[|w.sets| - 1]]
      && WalkSets(ds, joiner, i + 1)
         == Walked(w.sets[..|w.sets| - 1] + [VsSet(w.sets[|w.sets| - 1].members + l.names)], l.found)
  {
    hide Listed;
    var w := WalkSets(ds, joiner, i);
    var last := |w.sets| - 1;
    var l := Listed(ds[i].members, joiner, w.found);
    assert w.sets[last := VsSet(w.sets[last].members + l.names)]
      == w.sets[..last] + [VsSet(w.sets[last].members + l.names)];
  }

  lemma SnocIsCurrent(front: seq<VsSet>, names: seq<Name>)
    ensures CurrentSet(front + [VsSet(names)], |PutSets(front)|, |names|)
  {
    PutSetsSnoc(front, VsSet(names));
  }

  /** The offset of the local daemon's set is patched into the four bytes in front of the region. */
  method PatchOffset(buf: array<byte>, n: nat, offsetPtr: nat, offset: nat, ghost pre: seq<byte>, ghost off: seq<byte>,
                     ghost rest: seq<byte>)
    requires n <= buf.Length && |pre| == offsetPtr && |off| == 4 && buf[..n] == pre + off + rest
    modifies buf
    ensures buf[..n] == pre + Put32(offset) + rest
  {
    hide Put32;
    Behind(buf, n, pre + off, rest);
    Regroup(pre, off, rest);
    Behind(buf, n, pre, off + rest);
    Patch(buf, offsetPtr, Put32(offset), rest);
  }

  /** The set that the i-th daemon's members go to: a new one if the daemon's id is unknown or new, else the last. */
  method FindSet(buf: array<byte>, n: nat, offsetPtr: nat, ds: seq<DaemonRec>, i: nat, joiner: Option<Name>,
                 curPtr0: nat, curSize0: nat, ghost pre: seq<byte>, ghost off: seq<byte>)
      returns (end: nat, curPtr: nat, curSize: nat,
               ghost front: seq<VsSet>, ghost size4: seq<byte>, ghost cur: seq<Name>)
    requires i < |ds| && n + 4 <= buf.Length && |pre| == offsetPtr && |off| == 4
    requires var w := WalkSets(ds, joiner, i);
      buf[..n] == pre + off + PutSets(w.sets) && (i > 0 ==> CurrentSet(w.sets, curPtr0 - offsetPtr - 4, curSize0))
    modifies buf
    ensures n <= end <= n + 4 && |size4| == 4 && curSize == |cur| && curPtr == |pre + off + PutSets(front)|
    ensures buf[..end] == pre + off + PutSets(front) + size4 + PutNames(cur)
    ensures var l := Listed(ds[i].members, joiner, WalkSets(ds, joiner, i).found);
      WalkSets(ds, joiner, i + 1) == Walked(front + [VsSet(cur + l.names)], l.found)
  {
    hide PutSets, WalkSets, Opens, PutNames, Listed, Put32, CurrentSet;
    end, curPtr, curSize := n, curPtr0, curSize0;
    ghost var sets := WalkSets(ds, joiner, i).sets;
    front, size4, cur := sets, [0, 0, 0, 0], [];
    OpensIf(ds, i);
    if i == 0 || Unknown(ds[i - 1].memb) || ds[i - 1].memb != ds[i].memb {
      StepOpens(ds, joiner, i);
      curPtr := end;
      end := Append(buf, end, [0, 0, 0, 0]);
      curSize := 0;
      NoNames(pre + off + PutSets(front) + size4);
    } else {
      StepExtends(ds, joiner, i);
      front, cur := sets[..|sets| - 1], sets[|sets| - 1].members;
      size4 := Put32(|cur|);
      LastSet(front, VsSet(cur), curPtr - offsetPtr - 4, curSize);
      Regroup(pre + off, PutSets(front), size4 + PutNames(cur));
      Regroup(pre + off + PutSets(front), size4, PutNames(cur));
    }
  }

  /** One daemon of the walk: finds its set, notes the offset if the daemon is this one, and lists its members. */
  method WalkDaemon(buf: array<byte>, n: nat, offsetPtr: nat, ds: seq<DaemonRec>, i: nat, my: ProcId,
                    joiner: Option<Name>, found0: bool, curPtr0: nat, curSize0: nat,
                    ghost pre: seq<byte>, ghost off0: seq<byte>)
      returns (end: nat, found: bool, curPtr: nat, curSize: nat, ghost off: seq<byte>)
    requires i < |ds| && n + 4 + 32 * |ds[i].members| <= buf.Length && |pre| == offsetPtr && |off0| == 4
    requires var w := WalkSets(ds, joiner, i);
      && found0 == w.found && buf[..n] == pre + off0 + PutSets(w.sets)
      && (i > 0 ==> CurrentSet(w.sets, curPtr0 - offsetPtr - 4, curSize0))
    modifies buf
    ensures var w := WalkSets(ds, joiner, i + 1);
      && found == w.found && end <= n + 4 + 32 * |ds[i].members| && buf[..end] == pre + off + PutSets(w.sets)
      && curPtr >= offsetPtr + 4 && CurrentSet(w.sets, curPtr - offsetPtr - 4, curSize)
      && |off| == 4 && off == if ds[i].proc == my then Put32(curPtr - offsetPtr - 4) else off0
  {
    hide PutSets, WalkSets, Opens, PutNames, Listed, Put32, CurrentSet;
    ghost var front, size4, cur;
    end, curPtr, curSize, front, size4, cur := FindSet(buf, n, offsetPtr, ds, i, joiner, curPtr0, curSize0, pre, off0);
    off := off0;
    if ds[i].proc == my {
      Regroup3(pre + off, PutSets(front), size4, PutNames(cur));
      PatchOffset(buf, end, offsetPtr, curPtr - offsetPtr - 4, pre, off, PutSets(front) + size4 + PutNames(cur));
      off := Put32(curPtr - offsetPtr - 4);
      Regroup3(pre + off, PutSets(front), size4, PutNames(cur));
    }
    ghost var l := Listed(ds[i].members, joiner, found0);
    end, found, curSize := ListDaemon(buf, end, curPtr, curSize, ds[i].members, joiner, found0, pre + off, front,
                                      size4, cur);
    SnocIsCurrent(front, cur + l.names);
  }

  lemma OpensIf(ds: seq<DaemonRec>, i: nat)
    requires i < |ds|
    ensures Opens(ds, i) <==> i == 0 || Unknown(ds[i - 1].memb) || ds[i - 1].memb != ds[i].memb
  {
  }

  lemma NoNames(b: seq<byte>)
    ensures b + PutNames([]) == b
  {
  }

  lemma LastSet(front: seq<VsSet>, s: VsSet, start: int, size: nat)
    requires CurrentSet(front + [s], start, size)
    ensures PutSets(front + [s]) == PutSets(front) + (Put32(|s.members|) + PutNames(s.members))
    ensures start == |PutSets(front)| && size == |s.members|
  {
    PutSetsSnoc(front, s);
  }

  lemma Regroup3(a: seq<byte>, b: seq<byte>, c: seq<byte>, d: seq<byte>)
    ensures a + b + c + d == a + (b + c + d)
  {
  }

  // ---------------------------------------------------------------- the whole message

  lemma SamePrefixSameOffset(a: seq<VsSet>, b: seq<VsSet>, k: nat)
    requires k <= |a| && k <= |b| && a[..k] == b[..k]
    ensures Offset(a, k) == Offset(b, k)
  {
    OffsetPrefix(a, k, k);
    OffsetPrefix(b, k, k);
  }

  /** A set that has been left behind does not change any more. */
  lemma {:induction false} PrefixStays(ds: seq<DaemonRec>, joiner: Option<Name>, m: nat, n: nat)
    requires m < n <= |ds|
    ensures var k := SetOf(ds, m);
      k < |WalkSets(ds, joiner, n).sets| && WalkSets(ds, joiner, n).sets[..k] == WalkSets(ds, joiner, m + 1).sets[..k]
    decreases n
  {
    hide Opens, Listed, WalkSets, SetOf;
    SetsAscend(ds, m, n - 1);
    LastIsSetOf(ds, joiner, n - 1);
    if n > m + 1 {
      PrefixStays(ds, joiner, m, n - 1);
      PrefixStep(ds, joiner, n - 1, SetOf(ds, m));
    }
  }

  lemma LastIsSetOf(ds: seq<DaemonRec>, joiner: Option<Name>, i: nat)
    requires i < |ds|
    ensures |WalkSets(ds, joiner, i + 1).sets| == SetOf(ds, i) + 1
  {
    hide Opens, Listed;
  }

  /** One more daemon changes the last set at most. */
  lemma PrefixStep(ds: seq<DaemonRec>, joiner: Option<Name>, i: nat, k: nat)
    requires i < |ds| && k < |WalkSets(ds, joiner, i).sets|
    ensures k < |WalkSets(ds, joiner, i + 1).sets|
    ensures WalkSets(ds, joiner, i + 1).sets[..k] == WalkSets(ds, joiner, i).sets[..k]
  {
    hide Opens, Listed;
  }

  /** Where the message says the local daemon's set is. */
  function LocalOffset(ds: seq<DaemonRec>, joiner: Option<Name>, mine: nat): nat
    requires mine < |ds|
  {
    Offset(WalkSets(ds, joiner, mine + 1).sets, SetOf(ds, mine))
  }

  lemma LocalOffsetStays(ds: seq<DaemonRec>, joiner: Option<Name>, mine: nat)
    requires mine < |ds|
    ensures SetOf(ds, mine) < |AllSets(ds, joiner)|
    ensures Offset(AllSets(ds, joiner), SetOf(ds, mine)) == LocalOffset(ds, joiner, mine)
  {
    hide Opens, Listed;
    PrefixStays(ds, joiner, mine, |ds|);
    var k, w := SetOf(ds, mine), WalkSets(ds, joiner, |ds|).sets;
    assert AllSets(ds, joiner)[..k] == w[..k];
    SamePrefixSameOffset(AllSets(ds, joiner), WalkSets(ds, joiner, mine + 1).sets, k);
  }

  lemma CurrentIsLocal(ds: seq<DaemonRec>, joiner: Option<Name>, i: nat, start: int, size: nat)
    requires i < |ds| && CurrentSet(WalkSets(ds, joiner, i + 1).sets, start, size)
    ensures start == LocalOffset(ds, joiner, i)
  {
    hide Opens, Listed;
  }

  /** Every daemon's members, set after set; the offset field ends up with the local daemon's. */
  method WalkDaemons(buf: array<byte>, n0: nat, offsetPtr: nat, ds: seq<DaemonRec>, my: ProcId, joiner: Option<Name>,
                     ghost pre: seq<byte>, ghost mine: nat)
      returns (n: nat, found: bool, numSets: nat)
    requires n0 == offsetPtr + 4 <= buf.Length && |pre| == offsetPtr && buf[..offsetPtr] == pre
    requires n0 + Room(ds, 0) <= buf.Length
    requires mine < |ds| && ds[mine].proc == my && forall i | 0 <= i < |ds| && i != mine :: ds[i].proc != my
    modifies buf
    ensures var w := WalkSets(ds, joiner, |ds|);
      && found == w.found && numSets == |w.sets| && n <= n0 + Room(ds, 0)
      && buf[..n] == pre + Put32(LocalOffset(ds, joiner, mine)) + PutSets(w.sets)
  {
    hide PutSets, WalkSets, Opens, Listed, Put32, CurrentSet, Offset, LocalOffset, SetOf;
    ghost var off := buf[offsetPtr..n0];
    assert buf[..n0] == pre + off;
    n, found, numSets := n0, false, 0;
    var curPtr: nat, curSize: nat := 0, 0;
    NothingYet(ds, joiner, pre + off);
    for i := 0 to |ds|
      invariant n + Room(ds, i) <= n0 + Room(ds, 0) && |off| == 4
      invariant var w := WalkSets(ds, joiner, i);
        && found == w.found && numSets == |w.sets| && buf[..n] == pre + off + PutSets(w.sets)
        && (i > 0 ==> CurrentSet(w.sets, curPtr - offsetPtr - 4, curSize))
      invariant i > mine ==> off == Put32(LocalOffset(ds, joiner, mine))
    {
      SetCount(ds, joiner, i);
      if i == 0 || Unknown(ds[i - 1].memb) || ds[i - 1].memb != ds[i].memb {
        numSets := numSets + 1;
      }
      n, found, curPtr, curSize, off := WalkDaemon(buf, n, offsetPtr, ds, i, my, joiner, found, curPtr, curSize, pre,
                                                   off);
      CurrentIsLocal(ds, joiner, i, curPtr - offsetPtr - 4, curSize);
    }
  }

  lemma NothingYet(ds: seq<DaemonRec>, joiner: Option<Name>, b: seq<byte>)
    ensures WalkSets(ds, joiner, 0) == Walked([], false) && b + PutSets([]) == b
  {
  }

  lemma SetCount(ds: seq<DaemonRec>, joiner: Option<Name>, i: nat)
    requires i < |ds|
    ensures |WalkSets(ds, joiner, i + 1).sets|
         == |WalkSets(ds, joiner, i).sets|
            + (if i == 0 || Unknown(ds[i - 1].memb) || ds[i - 1].memb != ds[i].memb then 1 else 0)
  {
    hide Listed;
  }

  /** All sets: the daemons', then the joiner's own. */
  method WriteSets(buf: array<byte>, n0: nat, offsetPtr: nat, ds: seq<DaemonRec>, my: ProcId, joiner: Option<Name>,
                   ghost pre: seq<byte>, ghost mine: nat)
      returns (n: nat, numSets: nat)
    requires n0 == offsetPtr + 4 && |pre| == offsetPtr && n0 + Room(ds, 0) + 36 <= buf.Length && buf[..offsetPtr] == pre
    requires mine < |ds| && ds[mine].proc == my && forall i | 0 <= i < |ds| && i != mine :: ds[i].proc != my
    modifies buf
    ensures var sets := AllSets(ds, joiner);
      n <= buf.Length && numSets == |sets| && buf[..n] == pre + Put32(LocalOffset(ds, joiner, mine)) + PutSets(sets)
  {
    hide PutSets, WalkSets, Put32, LocalOffset;
    var found;
    n, found, numSets := WalkDaemons(buf, n0, offsetPtr, ds, my, joiner, pre, mine);
    ghost var sets := WalkSets(ds, joiner, |ds|).sets;
    ghost var off := Put32(LocalOffset(ds, joiner, mine));
    if joiner.Some? {
      numSets := numSets + 1;
      n := Append(buf, n, Put32(1));
      n := Append(buf, n, joiner.value);
      JoinerSet(sets, joiner.value);
      Regroup(pre + off + PutSets(sets), Put32(1), joiner.value);
      Regroup(pre + off, PutSets(sets), Put32(1) + joiner.value);
    } else {
      assert sets + [] == sets;
    }
  }

  /** G_build_memb_vs_buf, given the group's members in configuration order and its daemons by
      membership id. The daemon has local members. */
  method BuildMembVsBuf(buf: array<byte>, names: seq<Name>, id: GroupId, ds: seq<DaemonRec>, my: ProcId,
                        joiner: Option<Name>,
                        ghost mine: nat)
      returns (n: nat, dataLen: nat)
    requires mine < |ds| && ds[mine].proc == my && forall i | 0 <= i < |ds| && i != mine :: ds[i].proc != my
    requires 32 * |names| + 20 + Room(ds, 0) + 36 <= buf.Length
    modifies buf
    ensures n <= buf.Length && dataLen == n - 32 * |names|
    ensures buf[..n] == PutNames(names) + PutData(id, AllSets(ds, joiner), LocalOffset(ds, joiner, mine))
  {
    hide PutSets, Put32, LocalOffset, PutNames, PutGroupId, AllSets;
    n := WriteNames(buf, 0, names);
    n := Append(buf, n, PutGroupId(id));
    ghost var front := buf[..n];
    var numSetsPtr := n;
    n := Append(buf, n, [0, 0, 0, 0]);
    var numSets: nat;
    n, numSets := WriteSets(buf, n + 4, n, ds, my, joiner, buf[..n], mine);
    ghost var off, region := Put32(LocalOffset(ds, joiner, mine)), PutSets(AllSets(ds, joiner));
    Regroup(front + [0, 0, 0, 0], off, region);
    Regroup(front, [0, 0, 0, 0], off + region);
    PatchCount(buf, n, numSetsPtr, numSets, front, off + region);
    DataBytes(PutNames(names), id, AllSets(ds, joiner), LocalOffset(ds, joiner, mine));
    dataLen := n - 32 * |names|;
  }

  lemma DataBytes(b: seq<byte>, id: GroupId, sets: seq<VsSet>, offset: nat)
    ensures b + PutGroupId(id) + Put32(|sets|) + (Put32(offset) + PutSets(sets)) == b + PutData(id, sets, offset)
  {
    hide PutSets, Put32, PutGroupId;
    Regroup5(b, PutGroupId(id), Put32(|sets|), Put32(offset), PutSets(sets));
  }

  lemma Regroup5(a: seq<byte>, b: seq<byte>, c: seq<byte>, d: seq<byte>, e: seq<byte>)
    ensures a + b + c + (d + e) == a + (b + c + d + e)
  {
  }

  lemma JoinerSet(sets: seq<VsSet>, j: Name)
    ensures PutSets(sets + [VsSet([j])]) == PutSets(sets) + (Put32(1) + j)
  {
    PutSetsSnoc(sets, VsSet([j]));
    assert PutNames([j]) == j;
  }

  method PatchCount(buf: array<byte>, n: nat, at: nat, count: nat, ghost front: seq<byte>, ghost rest: seq<byte>)
    requires n <= buf.Length && |front| == at && buf[..n] == front + ([0, 0, 0, 0] + rest)
    modifies buf
    ensures buf[..n] == front + Put32(count) + rest
  {
    hide Put32;
    Regroup(front, [0, 0, 0, 0], rest);
    Behind(buf, n, front + [0, 0, 0, 0], rest);
    Behind(buf, n, front, [0, 0, 0, 0] + rest);
    Patch(buf, at, Put32(count), rest);
  }

  // ---------------------------------------------------------------- for a group

  /** A group's daemons in configuration order, each with its own membership id and its members by name. */
  ghost function VsRecs(g: Group, ps: seq<ProcId>): (r: seq<DaemonRec>)
    requires forall p | p in ps :: p in g.daemons
    ensures |r| == |ps|
    ensures forall i | 0 <= i < |r| :: r[i] == DaemonRec(ps[i], g.daemons[ps[i]].memb,
                                                         InOrder(g.daemons[ps[i]].members))
  {
    seq(|ps|, i requires 0 <= i < |ps| => DaemonRec(ps[i], g.daemons[ps[i]].memb, InOrder(g.daemons[ps[i]].members)))
  }

  /** The group's daemons in the order of the walk. */
  ghost function VsWalk(g: Group, conf: seq<ProcId>): seq<DaemonRec> {
    ByMemb(VsRecs(g, Select(conf, g.daemons.Keys)))
  }

  /** Every member is one daemon's only. */
  ghost predicate OwnedOnce(g: Group) {
    forall p, q, m | p in g.daemons && q in g.daemons && m in g.daemons[p].members && m in g.daemons[q].members ::
        p == q
  }

  lemma InWalk(g: Group, conf: seq<ProcId>, d: DaemonRec)
    requires forall p | p in g.daemons :: p in conf
    ensures d in VsWalk(g, conf) <==>
      d.proc in g.daemons && d == DaemonRec(d.proc, g.daemons[d.proc].memb, InOrder(g.daemons[d.proc].members))
  {
    var ps := Select(conf, g.daemons.Keys);
    var recs := VsRecs(g, ps);
    ByMembIsOrdered(recs);
    assert d in multiset(recs) <==> d in recs;
    assert d in multiset(VsWalk(g, conf)) <==> d in VsWalk(g, conf);
    if d.proc in g.daemons {
      var i :| 0 <= i < |ps| && ps[i] == d.proc;
      assert recs[i] in recs;
    }
  }

  // ---------------------------------------------------------------- everybody once

  lemma {:induction false} InsertNames(d: DaemonRec, ds: seq<DaemonRec>)
    ensures multiset(AllNames(Insert(d, ds))) == multiset(AllNames(ds)) + multiset(d.members)
  {
    if ds != [] && !IdBefore(d.memb, ds[0].memb) {
      InsertNames(d, ds[1..]);
    }
  }

  lemma {:induction false} SortedNames(ds: seq<DaemonRec>)
    ensures multiset(AllNames(ByMemb(ds))) == multiset(AllNames(ds))
  {
    if ds != [] {
      var front, d := ds[..|ds| - 1], ds[|ds| - 1];
      SortedNames(front);
      InsertNames(d, ByMemb(front));
      AllNamesConcat(front, [d]);
      assert ds == front + [d];
      assert AllNames([d]) == d.members;
    }
  }

  lemma InOrderIsDistinct(s: set<Name>)
    ensures Distinct(InOrder(s))
  {
    forall i, j | 0 <= i < j < |InOrder(s)| ensures InOrder(s)[i] != InOrder(s)[j] {
      InOrderDistinct(s, i, j);
    }
  }

  lemma DistinctConcat<T(!new)>(a: seq<T>, b: seq<T>)
    requires Distinct(a) && Distinct(b) && forall x | x in a :: x !in b
    ensures Distinct(a + b)
  {
    forall i, j | 0 <= i < j < |a + b| ensures (a + b)[i] != (a + b)[j] {
      if i < |a| && j >= |a| {
        assert a[i] in a && (a + b)[j] in b;
      }
    }
  }

  /** In configuration order each member comes once, and there are as many as the group counts. */
  lemma {:induction false} RecNames(g: Group, ps: seq<ProcId>)
    requires Distinct(ps) && OwnedOnce(g) && forall p | p in ps :: p in g.daemons
    ensures var names := AllNames(VsRecs(g, ps));
      && Distinct(names) && |names| == HeadCount(Only(g.daemons, Among(ps)))
      && forall m :: m in names <==> exists p :: p in ps && m in g.daemons[p].members
  {
    if ps == [] {
      NobodyMeansEmpty(Only(g.daemons, Among(ps)));
    } else {
      var rest, p := ps[1..], ps[0];
      RecNames(g, rest);
      assert ps == [p] + rest;
      assert VsRecs(g, ps)[1..] == VsRecs(g, rest);
      OneMoreRec(g, p, rest);
    }
  }

  lemma OneMoreRec(g: Group, p: ProcId, rest: seq<ProcId>)
    requires Distinct([p] + rest) && OwnedOnce(g) && p in g.daemons && forall q | q in rest :: q in g.daemons
    requires Distinct(AllNames(VsRecs(g, rest)))
    requires |AllNames(VsRecs(g, rest))| == HeadCount(Only(g.daemons, Among(rest)))
    requires forall m :: m in AllNames(VsRecs(g, rest)) <==> exists q :: q in rest && m in g.daemons[q].members
    ensures var names := InOrder(g.daemons[p].members) + AllNames(VsRecs(g, rest));
      && Distinct(names) && |names| == HeadCount(Only(g.daemons, Among([p] + rest)))
      && forall m :: m in names <==> exists q :: q in [p] + rest && m in g.daemons[q].members
  {
    hide VsRecs, AllNames, HeadCount, Distinct;
    NotAmongRest(p, rest);
    InOrderIsDistinct(g.daemons[p].members);
    DistinctConcat(InOrder(g.daemons[p].members), AllNames(VsRecs(g, rest)));
    OneMoreCounts(g, p, rest);
  }

  lemma NotAmongRest<T(!new)>(x: T, rest: seq<T>)
    requires Distinct([x] + rest)
    ensures x !in rest
  {
    var all := [x] + rest;
    assert all[0] == x && all[1..] == rest;
    assert forall j | 0 <= j < |rest| :: rest[j] == all[j + 1];
  }

  lemma OneMoreCounts(g: Group, p: ProcId, rest: seq<ProcId>)
    requires p in g.daemons && p !in rest
    ensures HeadCount(Only(g.daemons, Among([p] + rest)))
      == |g.daemons[p].members| + HeadCount(Only(g.daemons, Among(rest)))
  {
    hide HeadCount;
    var all := Only(g.daemons, Among([p] + rest));
    HeadCountSplit(all, p);
    assert all - {p} == Only(g.daemons, Among(rest));
  }

  // ---------------------------------------------------------------- the theorems

  ghost predicate Configured(g: Group, conf: seq<ProcId>) {
    Distinct(conf) && OwnedOnce(g) && forall p | p in g.daemons :: p in conf
  }

  ghost predicate IsMemberOf(g: Group, m: Name) {
    exists p :: p in g.daemons && m in g.daemons[p].members
  }

  lemma NamesOfGroup(g: Group, conf: seq<ProcId>)
    requires Configured(g, conf)
    ensures var names := AllNames(VsWalk(g, conf));
      && |names| == HeadCount(g.daemons)
      && forall m :: multiset(names)[m] == if IsMemberOf(g, m) then 1 else 0
  {
    hide Select, AllNames, VsRecs, HeadCount, Distinct, OwnedOnce, ByMemb, IsMemberOf;
    var ps := Select(conf, g.daemons.Keys);
    SelectDistinct(conf, g.daemons.Keys);
    assert forall p :: p in ps <==> p in g.daemons;
    RecNames(g, ps);
    SortedNames(VsRecs(g, ps));
    var names := AllNames(VsRecs(g, ps));
    OnlyAll(g, ps);
    forall m ensures multiset(names)[m] == if IsMemberOf(g, m) then 1 else 0 {
      CountOne(names, m);
      InSomeDaemon(g, ps, m);
    }
    SameSize(AllNames(VsWalk(g, conf)), names);
  }

  lemma OnlyAll(g: Group, ps: seq<ProcId>)
    requires forall p :: p in ps <==> p in g.daemons
    ensures Only(g.daemons, Among(ps)) == g.daemons
  {
  }

  lemma InSomeDaemon(g: Group, ps: seq<ProcId>, m: Name)
    requires forall p :: p in ps <==> p in g.daemons
    ensures IsMemberOf(g, m) <==> exists p :: p in ps && m in g.daemons[p].members
  {
  }

  lemma SameSize<T(!new)>(a: seq<T>, b: seq<T>)
    requires multiset(a) == multiset(b)
    ensures |a| == |b|
  {
    assert |multiset(a)| == |a| && |multiset(b)| == |b|;
  }

  /** Exact partition: over all sets, every member of the group is listed once and nobody else, and the
      sizes add up to the number of members. */
  lemma SetsPartitionGroup(g: Group, conf: seq<ProcId>, joiner: Option<Name>)
    requires Configured(g, conf) && (joiner.Some? ==> IsMemberOf(g, joiner.value))
    ensures var listed := Flat(AllSets(VsWalk(g, conf), joiner));
      && |listed| == HeadCount(g.daemons)
      && forall m :: multiset(listed)[m] == if IsMemberOf(g, m) then 1 else 0
  {
    hide AllNames, VsWalk, HeadCount, AllSets, Flat, IsMemberOf, Configured;
    NamesOfGroup(g, conf);
    var names := AllNames(VsWalk(g, conf));
    if joiner.Some? {
      assert joiner.value in multiset(AllNames(VsWalk(g, conf)));
    }
    SetsListAll(VsWalk(g, conf), joiner);
  }

  lemma DistinctRearranged<T(!new)>(a: seq<T>, b: seq<T>)
    requires multiset(a) == multiset(b) && Distinct(b)
    ensures Distinct(a)
  {
    forall i, j | 0 <= i < j < |a| ensures a[i] != a[j] {
      CountOne(b, a[i]);
      CountedTwice(a, i, j);
    }
  }

  lemma CountedTwice<T(!new)>(a: seq<T>, i: nat, j: nat)
    requires i < j < |a|
    ensures a[i] == a[j] ==> multiset(a)[a[i]] >= 2
  {
    assert a == a[..j] + a[j..];
    assert a[i] in a[..j] && a[j] in a[j..];
  }

  /** The walk visits every daemon of the group once. */
  lemma WalkVisitsOnce(g: Group, conf: seq<ProcId>, i: nat, j: nat)
    requires Configured(g, conf) && i < |VsWalk(g, conf)| && j < |VsWalk(g, conf)|
    ensures VsWalk(g, conf)[i].proc == VsWalk(g, conf)[j].proc <==> i == j
  {
    var ps, walk := Select(conf, g.daemons.Keys), VsWalk(g, conf);
    SelectDistinct(conf, g.daemons.Keys);
    var recs := VsRecs(g, ps);
    assert Distinct(recs) by {
      forall k, l | 0 <= k < l < |recs| ensures recs[k] != recs[l] {
        assert recs[k].proc == ps[k] && recs[l].proc == ps[l];
      }
    }
    ByMembIsOrdered(recs);
    DistinctRearranged(walk, recs);
    InWalk(g, conf, walk[i]);
    InWalk(g, conf, walk[j]);
    assert walk[i] in walk && walk[j] in walk;
  }

  lemma PlaceInWalk(g: Group, conf: seq<ProcId>, p: ProcId) returns (i: nat)
    requires Configured(g, conf) && p in g.daemons
    ensures i < |VsWalk(g, conf)|
    ensures VsWalk(g, conf)[i] == DaemonRec(p, g.daemons[p].memb, InOrder(g.daemons[p].members))
  {
    hide VsWalk, OwnedOnce, Distinct;
    var d := DaemonRec(p, g.daemons[p].memb, InOrder(g.daemons[p].members));
    InWalk(g, conf, d);
    i :| 0 <= i < |VsWalk(g, conf)| && VsWalk(g, conf)[i] == d;
  }

  /** A member other than the joiner is listed in its daemon's set only. */
  lemma MemberInSet(g: Group, conf: seq<ProcId>, joiner: Option<Name>, k: nat, p: ProcId, i: nat, m: Name)
    requires Configured(g, conf) && p in g.daemons && m in g.daemons[p].members && joiner != Some(m)
    requires i < |VsWalk(g, conf)| && VsWalk(g, conf)[i].proc == p && k < |AllSets(VsWalk(g, conf), joiner)|
    ensures m in AllSets(VsWalk(g, conf), joiner)[k].members <==> k == SetOf(VsWalk(g, conf), i)
  {
    hide VsWalk, WalkSets, OwnedOnce, SetOf;
    var walk := VsWalk(g, conf);
    var sets := WalkSets(walk, joiner, |walk|).sets;
    if k < |sets| {
      ListedInItsSet(walk, joiner, |walk|, k, m);
      forall j | 0 <= j < |walk| ensures m in walk[j].members <==> j == i {
        InWalk(g, conf, walk[j]);
        assert walk[j] in walk;
        WalkVisitsOnce(g, conf, i, j);
        OwnerOf(g, m, p, walk[j].proc);
      }
    } else {
      PrefixStays(walk, joiner, i, |walk|);
    }
  }

  lemma OwnerOf(g: Group, m: Name, p: ProcId, q: ProcId)
    requires OwnedOnce(g) && p in g.daemons && q in g.daemons && m in g.daemons[p].members
    ensures m in g.daemons[q].members <==> p == q
  {
  }

  /** Two members that did not just join are in one set exactly if they are at one daemon or their daemons
      carry the same known membership id: those that came together. */
  lemma ShareSetIff(g: Group, conf: seq<ProcId>, joiner: Option<Name>, p: ProcId, m: Name, q: ProcId, n: Name)
    requires Configured(g, conf) && p in g.daemons && m in g.daemons[p].members && q in g.daemons
    requires n in g.daemons[q].members
    requires joiner != Some(m) && joiner != Some(n)
    ensures (exists s :: s in AllSets(VsWalk(g, conf), joiner) && m in s.members && n in s.members)
      <==> p == q || (g.daemons[p].memb == g.daemons[q].memb && !Unknown(g.daemons[p].memb))
  {
    hide VsWalk, AllSets, SetOf, OwnedOnce, Distinct;
    var sets := AllSets(VsWalk(g, conf), joiner);
    var i := PlaceInWalk(g, conf, p);
    var j := PlaceInWalk(g, conf, q);
    LocalOffsetStays(VsWalk(g, conf), joiner, i);
    forall k | 0 <= k < |sets|
      ensures m in sets[k].members <==> k == SetOf(VsWalk(g, conf), i)
      ensures n in sets[k].members <==> k == SetOf(VsWalk(g, conf), j)
    {
      MemberInSet(g, conf, joiner, k, p, i, m);
      MemberInSet(g, conf, joiner, k, q, j, n);
    }
    TogetherInWalk(g, conf, i, j);
    if SetOf(VsWalk(g, conf), i) == SetOf(VsWalk(g, conf), j) {
      assert sets[SetOf(VsWalk(g, conf), i)] in sets;
    }
  }

  lemma TogetherInWalk(g: Group, conf: seq<ProcId>, i: nat, j: nat)
    requires Configured(g, conf) && i < |VsWalk(g, conf)| && j < |VsWalk(g, conf)|
    ensures var walk := VsWalk(g, conf);
      SetOf(walk, i) == SetOf(walk, j)
      <==> walk[i].proc == walk[j].proc || (walk[i].memb == walk[j].memb && !Unknown(walk[i].memb))
  {
    hide SetOf;
    var walk := VsWalk(g, conf);
    ByMembIsOrdered(VsRecs(g, Select(conf, g.daemons.Keys)));
    WalkVisitsOnce(g, conf, i, j);
    hide VsWalk;
    if i <= j {
      ListedTogether(walk, i, j);
    } else {
      ListedTogether(walk, j, i);
    }
  }

  /** The offset sent to the local members locates the set that lists them, whoever has just joined. */
  lemma LocalSetFound(g: Group, conf: seq<ProcId>, joiner: Option<Name>, my: ProcId, mine: nat, m: Name)
    requires Configured(g, conf) && my in g.daemons && m in g.daemons[my].members && joiner != Some(m)
    requires mine < |VsWalk(g, conf)| && VsWalk(g, conf)[mine].proc == my
    requires SetsFit(AllSets(VsWalk(g, conf), joiner))
    ensures var r := GetSet(PutSets(AllSets(VsWalk(g, conf), joiner)), LocalOffset(VsWalk(g, conf), joiner, mine));
      r.Parsed? && r.value in AllSets(VsWalk(g, conf), joiner) && m in r.value.members
  {
    hide VsWalk, AllSets, SetOf, OwnedOnce, Distinct, PutSets, GetSet, LocalOffset, SetsFit, Offset;
    var walk := VsWalk(g, conf);
    LocalOffsetStays(walk, joiner, mine);
    OffsetLocates(AllSets(walk, joiner), SetOf(walk, mine));
    MemberInSet(g, conf, joiner, SetOf(walk, mine), my, mine, m);
  }

  /** The offset patched in for a local joiner locates the joiner's own set. */
  lemma JoinerSetFound(g: Group, conf: seq<ProcId>, id: GroupId, j: Name, offset: nat)
    requires SetsFit(AllSets(VsWalk(g, conf), Some(j)))
    ensures var sets := AllSets(VsWalk(g, conf), Some(j));
      var at := |PutData(id, sets, offset)| - (4 + MAX_GROUP_NAME) - (12 + 2 * 4);
      at >= 0 && GetSet(PutSets(sets), at) == Parsed(VsSet([j]), |PutSets(sets)|)
  {
    hide VsWalk, WalkSets, PutSets, GetSet, PutData;
    var sets := AllSets(VsWalk(g, conf), Some(j));
    JoinerOffset(id, sets, offset, j);
    OffsetLocates(sets, |sets| - 1);
  }
}
