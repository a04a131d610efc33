/** How the client library reads the data of a membership message: the group id, the number of sets, the byte offset
    of the receiver's own set, and the sets one after another. */
module MembInfo {
  import opened Wire
  import opened Wrappers
  import opened GroupTable
  import opened GroupsCodec
  import opened VsSets
  import opened VsMessage

  const NUM_SETS_OFFSET := 12
  const LOCAL_OFFSET_OFFSET := 16
  const FIRST_SET_OFFSET := 20

  /** vs_set_info: how many names a set has, and where they start. */
  datatype SetInfo = SetInfo(numMembers: nat, membersOffset: nat)

  /** The caller's array is too short, the message ends before its sets do, or the sets, and the place of the
      receiver's own among them. */
  datatype Answer = BufferTooShort | BehindMessage | Sets(infos: seq<SetInfo>, mine: Option<nat>)

  function NumSets(d: seq<byte>): nat
    requires |d| >= FIRST_SET_OFFSET
  {
    Get32u(d[NUM_SETS_OFFSET..LOCAL_OFFSET_OFFSET])
  }

  function OwnSetAt(d: seq<byte>): nat
    requires |d| >= FIRST_SET_OFFSET
  {
    FIRST_SET_OFFSET + Get32u(d[LOCAL_OFFSET_OFFSET..FIRST_SET_OFFSET])
  }

  /** One set's header, and where the next set starts. */
  function GetInfo(d: seq<byte>, at: nat): (r: Parsed<SetInfo>)
    ensures r.Parsed? ==> at < r.end <= |d| && r.value.membersOffset + 32 * r.value.numMembers == r.end
  {
    if at + 4 > |d| then Beyond
    else
      var n := Get32u(d[at..at + 4]);
      if at + 4 + 32 * n > |d| then Beyond else Parsed(SetInfo(n, at + 4), at + 4 + 32 * n)
  }

  function GetInfos(d: seq<byte>, at: nat, k: nat): (r: Parsed<seq<SetInfo>>)
    ensures r.Parsed? ==> at <= r.end && |r.value| == k
    ensures r.Parsed? ==> forall s | s in r.value :: s.membersOffset + 32 * s.numMembers <= |d|
    decreases k
  {
    if k == 0 then Parsed([], at)
    else
      match GetInfo(d, at)
      case Beyond => Beyond
      case Parsed(s, next) =>
        match GetInfos(d, next, k - 1)
        case Beyond => Beyond
        case Parsed(rest, end) => Parsed([s] + rest, end)
  }

  /** The last set that starts at `at`. */
  function PlaceOf(infos: seq<SetInfo>, at: nat): (k: Option<nat>)
    ensures k.Some? ==> k.value < |infos| && infos[k.value].membersOffset == at + 4
    ensures k.None? ==> forall i | 0 <= i < |infos| :: infos[i].membersOffset != at + 4
  {
    if infos == [] then None
    else
      var last := |infos| - 1;
      if infos[last].membersOffset == at + 4 then Some(last) else PlaceOf(infos[..last], at)
  }

  /** SP_get_vs_sets_info. A negative room compares as an unsigned number. */
  method GetVsSetsInfo(d: seq<byte>, room: int32) returns (r: Answer)
    requires |d| >= FIRST_SET_OFFSET
    ensures r ==
      if 0 <= room < NumSets(d) || room + 0x1_0000_0000 < NumSets(d) then BufferTooShort
      else
        match GetInfos(d, FIRST_SET_OFFSET, NumSets(d))
        case Beyond => BehindMessage
        case Parsed(infos, _) => Sets(infos, PlaceOf(infos, OwnSetAt(d)))
  {
    hide Get32u, PlaceOf, OwnSetAt, NumSets, GetInfos, Prepended, GetInfo;
    var n := NumSets(d);
    if (if room < 0 then room + 0x1_0000_0000 else room) < n {
      return BufferTooShort;
    }
    var at: nat, infos, mine := FIRST_SET_OFFSET, [], None;
    NothingPrepended(GetInfos(d, FIRST_SET_OFFSET, n));
    for i := 0 to n
      invariant |infos| == i && mine == PlaceOf(infos, OwnSetAt(d))
      invariant GetInfos(d, FIRST_SET_OFFSET, n) == Prepended(infos, GetInfos(d, at, n - i))
    {
      OneMore(d, at, n - i, infos);
      HeaderAt(d, at);
      if at + 4 > |d| || at + 4 + 32 * Get32u(d[at..at + 4]) > |d| {
        return BehindMessage;
      }
      var s := SetInfo(Get32u(d[at..at + 4]), at + 4);
      PlaceOfMore(infos, s, OwnSetAt(d));
      if at == OwnSetAt(d) {
        mine := Some(i);
      }
      infos := infos + [s];
      at := at + 4 + 32 * s.numMembers;
    }
    AllPrepended(d, at, infos);
    return Sets(infos, mine);
  }

  lemma HeaderAt(d: seq<byte>, at: nat)
    ensures GetInfo(d, at) ==
      if at + 4 > |d| || at + 4 + 32 * Get32u(d[at..at + 4]) > |d| then Beyond
      else Parsed(SetInfo(Get32u(d[at..at + 4]), at + 4), at + 4 + 32 * Get32u(d[at..at + 4]))
  {
  }

  lemma AllPrepended(d: seq<byte>, at: nat, infos: seq<SetInfo>)
    ensures Prepended(infos, GetInfos(d, at, 0)) == Parsed(infos, at)
  {
    assert infos + [] == infos;
  }

  lemma NothingPrepended(r: Parsed<seq<SetInfo>>)
    ensures r == Prepended([], r)
  {
    if r.Parsed? {
      assert [] + r.value == r.value;
    }
  }

  lemma PlaceOfMore(infos: seq<SetInfo>, s: SetInfo, at: nat)
    ensures PlaceOf(infos + [s], at) == if s.membersOffset == at + 4 then Some(|infos|) else PlaceOf(infos, at)
  {
    assert (infos + [s])[..|infos|] == infos;
  }

  lemma OneMore(d: seq<byte>, at: nat, k: nat, front: seq<SetInfo>)
    requires k > 0
    ensures Prepended(front, GetInfos(d, at, k)) ==
      match GetInfo(d, at)
      case Beyond => Beyond
      case Parsed(s, next) => Prepended(front + [s], GetInfos(d, next, k - 1))
  {
    hide Get32u, GetInfo;
    var r := GetInfo(d, at);
    if r.Parsed? {
      PrependMore(front, r.value, GetInfos(d, r.end, k - 1));
    }
  }

  function Prepended(front: seq<SetInfo>, r: Parsed<seq<SetInfo>>): Parsed<seq<SetInfo>> {
    match r
    case Beyond => Beyond
    case Parsed(rest, end) => Parsed(front + rest, end)
  }

  lemma PrependMore(front: seq<SetInfo>, s: SetInfo, r: Parsed<seq<SetInfo>>)
    ensures Prepended(front, Prepended([s], r)) == Prepended(front + [s], r)
  {
    if r.Parsed? {
      assert front + ([s] + r.value) == front + [s] + r.value;
    }
  }

  /** SP_get_vs_set_members, for every set in turn. */
  ghost function Members(d: seq<byte>, infos: seq<SetInfo>): (r: seq<VsSet>)
    requires forall s | s in infos :: s.membersOffset + 32 * s.numMembers <= |d|
    ensures |r| == |infos|
    ensures forall i | 0 <= i < |r| :: r[i] == VsSet(GetNames(d, infos[i].membersOffset, infos[i].numMembers))
  {
    seq(|infos|, i requires 0 <= i < |infos| => VsSet(GetNames(d, infos[i].membersOffset, infos[i].numMembers)))
  }

  // ---------------------------------------------------------------- what the daemon wrote is read

  lemma HasBehind(a: seq<byte>, b: seq<byte>, at: nat, e: seq<byte>)
    requires Has(b, at, e)
    ensures Has(a + b, |a| + at, e)
  {
    assert (a + b)[|a| + at..|a| + at + |e|] == b[at..at + |e|];
  }

  lemma DataFields(id: GroupId, sets: seq<VsSet>, offset: nat)
    requires |sets| < 0x1_0000_0000 && offset < 0x1_0000_0000
    ensures var d := PutData(id, sets, offset);
      && |d| == FIRST_SET_OFFSET + |PutSets(sets)| && d[FIRST_SET_OFFSET..] == PutSets(sets)
      && GetGroupId(d[..12]) == id && NumSets(d) == |sets| && OwnSetAt(d) == FIRST_SET_OFFSET + offset
  {
    hide PutSets, Put32, PutGroupId, GetGroupId, Get32u;
    var d := PutData(id, sets, offset);
    assert d[..12] == PutGroupId(id);
    assert d[12..16] == Put32(|sets|);
    assert d[16..20] == Put32(offset);
    ReadGroupId(id);
    RoundTrip32u(|sets|);
    RoundTrip32u(offset);
  }

  /** At a set's place the header and the names are that set's. */
  lemma SetRead(front: seq<byte>, sets: seq<VsSet>, k: nat)
    requires k < |sets| && SetsFit(sets)
    ensures var d, at := front + PutSets(sets), |front| + Offset(sets, k);
      && GetInfo(d, at) == Parsed(SetInfo(|sets[k].members|, at + 4), |front| + Offset(sets, k + 1))
      && at + 4 + 32 * |sets[k].members| <= |d| && GetNames(d, at + 4, |sets[k].members|) == sets[k].members
  {
    hide PutSets, Offset, PutNames, GetNames, Put32, Get32u;
    var d, at := front + PutSets(sets), |front| + Offset(sets, k);
    SetsHave(sets, k);
    HasBehind(front, PutSets(sets), Offset(sets, k), PutSet(sets[k]));
    HasParts(d, at, Put32(|sets[k].members|), PutNames(sets[k].members));
    assert sets[k] in sets;
    RoundTrip32u(|sets[k].members|);
    ReadNames(d, at + 4, sets[k].members);
    SetEnds(sets, k);
  }

  ghost predicate InfoOf(d: seq<byte>, s: SetInfo, at: nat, x: VsSet) {
    && s == SetInfo(|x.members|, at + 4) && at + 4 + 32 * |x.members| <= |d|
    && GetNames(d, at + 4, |x.members|) == x.members
  }

  ghost predicate InfosFrom(d: seq<byte>, infos: seq<SetInfo>, start: nat, sets: seq<VsSet>, k: nat)
    requires k <= |sets|
  {
    |infos| == |sets| - k && forall j | k <= j < |sets| :: InfoOf(d, infos[j - k], start + Offset(sets, j), sets[j])
  }

  lemma InfosCons(d: seq<byte>, s: SetInfo, rest: seq<SetInfo>, start: nat, sets: seq<VsSet>, k: nat)
    requires k < |sets| && InfoOf(d, s, start + Offset(sets, k), sets[k]) && InfosFrom(d, rest, start, sets, k + 1)
    ensures InfosFrom(d, [s] + rest, start, sets, k)
  {
    hide InfoOf, Offset;
    var all := [s] + rest;
    forall j | k <= j < |sets| ensures InfoOf(d, all[j - k], start + Offset(sets, j), sets[j]) {
      if j > k {
        assert InfoOf(d, rest[j - (k + 1)], start + Offset(sets, j), sets[j]);
      }
    }
  }

  lemma {:induction false} SetsRead(front: seq<byte>, sets: seq<VsSet>, k: nat)
    requires k <= |sets| && SetsFit(sets)
    ensures var d := front + PutSets(sets);
      var r := GetInfos(d, |front| + Offset(sets, k), |sets| - k);
      r.Parsed? && r.end == |d| && InfosFrom(d, r.value, |front|, sets, k)
    decreases |sets| - k
  {
    hide PutSets, Offset, GetNames, GetInfo, Get32u, SetsFit, InfosFrom;
    var d := front + PutSets(sets);
    if k == |sets| {
      AllOffset(sets);
      NoInfos(d, |front|, sets);
    } else {
      SetRead(front, sets, k);
      SetsRead(front, sets, k + 1);
      var s := SetInfo(|sets[k].members|, |front| + Offset(sets, k) + 4);
      InfosCons(d, s, GetInfos(d, |front| + Offset(sets, k + 1), |sets| - k - 1).value, |front|, sets, k);
    }
  }

  lemma NoInfos(d: seq<byte>, start: nat, sets: seq<VsSet>)
    ensures InfosFrom(d, [], start, sets, |sets|)
  {
  }

  lemma AllOffset(sets: seq<VsSet>)
    ensures |PutSets(sets)| == Offset(sets, |sets|)
  {
  }

  lemma {:induction false} OffsetsAscend(sets: seq<VsSet>, i: nat, k: nat)
    requires i < k <= |sets|
    ensures Offset(sets, i) < Offset(sets, k)
  {
    if i < k - 1 {
      OffsetsAscend(sets, i, k - 1);
    }
  }

  lemma OwnPlace(infos: seq<SetInfo>, sets: seq<VsSet>, k: nat)
    requires k < |sets| == |infos|
    requires forall j | 0 <= j < |infos| :: infos[j].membersOffset == FIRST_SET_OFFSET + Offset(sets, j) + 4
    ensures PlaceOf(infos, FIRST_SET_OFFSET + Offset(sets, k)) == Some(k)
  {
    hide Offset, PlaceOf;
    assert infos[k].membersOffset == FIRST_SET_OFFSET + Offset(sets, k) + 4;
    var r := PlaceOf(infos, FIRST_SET_OFFSET + Offset(sets, k));
    assert r.Some?;
    if r.value < k {
      OffsetsAscend(sets, r.value, k);
    } else if k < r.value {
      OffsetsAscend(sets, k, r.value);
    }
  }

  lemma MembersAre(d: seq<byte>, infos: seq<SetInfo>, sets: seq<VsSet>)
    requires |infos| == |sets| && forall s | s in infos :: s.membersOffset + 32 * s.numMembers <= |d|
    requires forall j | 0 <= j < |infos| :: InfoOf(d, infos[j], FIRST_SET_OFFSET + Offset(sets, j), sets[j])
    ensures Members(d, infos) == sets
  {
    hide Offset, GetNames;
    forall i | 0 <= i < |sets| ensures Members(d, infos)[i] == sets[i] {
      assert infos[i] in infos && InfoOf(d, infos[i], FIRST_SET_OFFSET + Offset(sets, i), sets[i]);
    }
  }

  /** The client reads the group id and every set as the daemon wrote them; the set whose offset was put in is its
      own. */
  lemma DataReadsBack(id: GroupId, sets: seq<VsSet>, k: nat)
    requires k < |sets| && |PutSets(sets)| < 0x1_0000_0000
    ensures var d := PutData(id, sets, Offset(sets, k));
      && |d| >= FIRST_SET_OFFSET && GetGroupId(d[..12]) == id && NumSets(d) == |sets|
      && var r := GetInfos(d, FIRST_SET_OFFSET, NumSets(d));
         && r.Parsed? && r.end == |d| && Members(d, r.value) == sets && PlaceOf(r.value, OwnSetAt(d)) == Some(k)
  {
    hide PutSets, Offset, GetNames, GetInfos, GetGroupId, Members, NumSets, OwnSetAt, PlaceOf, PutData, InfoOf,
      SetsFit;
    Fits(sets);
    OffsetsBelow(sets, k);
    var d := PutData(id, sets, Offset(sets, k));
    DataFields(id, sets, Offset(sets, k));
    InfosOf(d, sets);
    var infos := GetInfos(d, FIRST_SET_OFFSET, NumSets(d)).value;
    MembersAre(d, infos, sets);
    forall j | 0 <= j < |infos| ensures infos[j].membersOffset == FIRST_SET_OFFSET + Offset(sets, j) + 4 {
      InfoStarts(d, infos[j], FIRST_SET_OFFSET + Offset(sets, j), sets[j]);
    }
    OwnPlace(infos, sets, k);
  }

  lemma InfoStarts(d: seq<byte>, s: SetInfo, at: nat, x: VsSet)
    requires InfoOf(d, s, at, x)
    ensures s.membersOffset == at + 4
  {
  }

  lemma InfosOf(d: seq<byte>, sets: seq<VsSet>)
    requires |d| >= FIRST_SET_OFFSET && d[FIRST_SET_OFFSET..] == PutSets(sets) && SetsFit(sets)
    ensures var r := GetInfos(d, FIRST_SET_OFFSET, |sets|);
      && r.Parsed? && r.end == |d|
      && forall j | 0 <= j < |r.value| :: InfoOf(d, r.value[j], FIRST_SET_OFFSET + Offset(sets, j), sets[j])
  {
    hide PutSets, Offset, GetInfos, InfoOf, SetsFit;
    var front := d[..FIRST_SET_OFFSET];
    assert d == front + PutSets(sets);
    SetsRead(front, sets, 0);
    StartOffset(sets);
    var r := GetInfos(d, FIRST_SET_OFFSET, |sets|);
    forall j | 0 <= j < |r.value| ensures InfoOf(d, r.value[j], FIRST_SET_OFFSET + Offset(sets, j), sets[j]) {
      assert InfoOf(d, r.value[j - 0], |front| + Offset(sets, j), sets[j]);
    }
  }

  lemma StartOffset(sets: seq<VsSet>)
    ensures Offset(sets, 0) == 0
  {
  }

  lemma OffsetsBelow(sets: seq<VsSet>, k: nat)
    requires k < |sets|
    ensures Offset(sets, k) < |PutSets(sets)|
  {
    OffsetsAscend(sets, k, |sets|);
    AllOffset(sets);
  }

  /** Sets that lie in less than four gigabytes can be counted in four bytes, and so can their names. */
  lemma {:induction false} Fits(sets: seq<VsSet>)
    requires |PutSets(sets)| < 0x1_0000_0000
    ensures SetsFit(sets) && 4 * |sets| <= |PutSets(sets)|
    decreases |sets|
  {
    if sets != [] {
      var front, last := sets[..|sets| - 1], sets[|sets| - 1];
      Fits(front);
      assert sets == front + [last];
    }
  }
}
