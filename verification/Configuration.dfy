/** Lookups in the daemon configuration: the order of daemons and membership of segments. */
module Configuration {
  import opened Ordering
  import opened GroupTable

  /** A configured daemon: its id, and the addresses of its interfaces. */
  datatype Proc = Proc(id: ProcId, addresses: seq<ProcId>)

  type Segment = seq<Proc>

  /** The index of the first daemon with interface `id`, or -1. */
  function IndexById(procs: seq<Proc>, id: ProcId): (i: int)
    ensures -1 <= i < |procs|
    ensures i == -1 <==> forall p | p in procs :: id !in p.addresses
    ensures i >= 0 ==> id in procs[i].addresses && forall j | 0 <= j < i :: id !in procs[j].addresses
  {
    if procs == [] then -1
    else if id in procs[0].addresses then 0
    else
      var i := IndexById(procs[1..], id);
      if i == -1 then -1 else i + 1
  }

  /** Conf_proc_by_id and Conf_id_in_seg: the same scan over daemons and their interfaces. */
  method FindById(procs: seq<Proc>, id: ProcId) returns (r: int)
    ensures r == IndexById(procs, id)
  {
    for i := 0 to |procs|
      invariant forall k | 0 <= k < i :: id !in procs[k].addresses
    {
      for j := 0 to |procs[i].addresses|
        invariant id !in procs[i].addresses[..j]
      {
        if procs[i].addresses[j] == id {
          FirstMatch(procs, id, i);
          return i;
        }
      }
    }
    return -1;
  }

  lemma FirstMatch(procs: seq<Proc>, id: ProcId, i: nat)
    requires i < |procs| && id in procs[i].addresses && forall k | 0 <= k < i :: id !in procs[k].addresses
    ensures IndexById(procs, id) == i
  {
    assert procs[i] in procs;
  }

  /** Conf_id_in_conf: the first segment holding `id`, or -1. */
  method FindSegment(segments: seq<Segment>, id: ProcId) returns (r: int)
    ensures -1 <= r < |segments|
    ensures r == -1 <==> forall s | s in segments :: IndexById(s, id) == -1
    ensures r >= 0 ==> IndexById(segments[r], id) >= 0 && forall k | 0 <= k < r :: IndexById(segments[k], id) == -1
  {
    for i := 0 to |segments|
      invariant forall k | 0 <= k < i :: IndexById(segments[k], id) == -1
    {
      var at := FindById(segments[i], id);
      if at >= 0 {
        return i;
      }
    }
    return -1;
  }

  function Joined(segments: seq<Segment>): seq<Proc> {
    if segments == [] then [] else segments[0] + Joined(segments[1..])
  }

  /** Conf_num_procs. */
  method CountProcs(segments: seq<Segment>) returns (n: nat)
    ensures n == |Joined(segments)|
  {
    n := 0;
    for i := 0 to |segments|
      invariant n + |Joined(segments[i..])| == |Joined(segments)|
    {
      assert segments[i..][1..] == segments[i + 1..];
      n := n + |segments[i]|;
    }
  }

  /** Addresses belong to one daemon each, and a daemon's id is one of its addresses. */
  ghost predicate Unambiguous(procs: seq<Proc>) {
    && (forall p | p in procs :: p.id in p.addresses)
    && (forall i, j, a | 0 <= i < |procs| && 0 <= j < |procs| && a in procs[i].addresses && a in procs[j].addresses ::
        i == j)
  }

  function Ids(procs: seq<Proc>): (r: seq<ProcId>)
    ensures |r| == |procs| && forall i | 0 <= i < |procs| :: r[i] == procs[i].id
  {
    if procs == [] then [] else [procs[0].id] + Ids(procs[1..])
  }

  lemma IdsDistinct(procs: seq<Proc>)
    requires Unambiguous(procs)
    ensures Distinct(Ids(procs))
  {
    forall i, j | 0 <= i < j < |procs| ensures Ids(procs)[i] != Ids(procs)[j] {
      assert procs[i] in procs && procs[j] in procs;
    }
  }

  /** The place of an id in the configuration order, or -1. */
  function Place(conf: seq<ProcId>, id: ProcId): (i: int)
    ensures -1 <= i < |conf|
    ensures i == -1 <==> id !in conf
    ensures i >= 0 ==> conf[i] == id
  {
    if conf == [] then -1
    else if conf[0] == id then 0
    else
      var i := Place(conf[1..], id);
      if i == -1 then -1 else i + 1
  }

  /** Looking a daemon up gives its place, whichever of its addresses identifies it. */
  lemma LookupGivesPlace(procs: seq<Proc>, k: nat, id: ProcId)
    requires Unambiguous(procs) && k < |procs| && id in procs[k].addresses
    ensures IndexById(procs, id) == Place(Ids(procs), procs[k].id) == k
  {
    FirstMatch(procs, id, k);
    IdsDistinct(procs);
    assert Ids(procs)[k] == procs[k].id;
  }

  /** The members of a delivered membership, as the groups layer uses it. */
  ghost function MembersOf(segments: seq<Segment>): set<ProcId> {
    set p | p in Joined(segments) :: p.id
  }

  lemma {:induction false} JoinedHolds(segments: seq<Segment>, p: Proc)
    ensures p in Joined(segments) <==> exists s :: s in segments && p in s
  {
    if segments != [] {
      JoinedHolds(segments[1..], p);
      assert segments == [segments[0]] + segments[1..];
    }
  }

  /** Looked up by its id, a configured daemon is found in a segment exactly if it is a member. */
  lemma FoundIffMember(config: seq<Proc>, segments: seq<Segment>, q: Proc)
    requires Unambiguous(config) && q in config && forall p | p in Joined(segments) :: p in config
    ensures q in Joined(segments) <==> exists s :: s in segments && IndexById(s, q.id) >= 0
  {
    if q in Joined(segments) {
      JoinedHolds(segments, q);
      var s :| s in segments && q in s;
      assert IndexById(s, q.id) >= 0;
    } else {
      forall s | s in segments ensures IndexById(s, q.id) == -1 {
        forall p | p in s ensures q.id !in p.addresses {
          JoinedHolds(segments, p);
          var i :| 0 <= i < |config| && config[i] == p;
          var j :| 0 <= j < |config| && config[j] == q;
        }
      }
    }
  }

  /** Conf_num_procs is the size of the membership. */
  lemma CountIsSize(segments: seq<Segment>)
    requires Unambiguous(Joined(segments))
    ensures |MembersOf(segments)| == |Joined(segments)|
  {
    var ids := Ids(Joined(segments));
    IdsDistinct(Joined(segments));
    DistinctSize(ids);
    assert MembersOf(segments) == Among(ids) by {
      forall x | x in MembersOf(segments) ensures x in ids {
        var p :| p in Joined(segments) && p.id == x;
        var i :| 0 <= i < |Joined(segments)| && Joined(segments)[i] == p;
        assert ids[i] == x;
      }
      forall x | x in ids ensures x in MembersOf(segments) {
        var i :| 0 <= i < |ids| && ids[i] == x;
        assert Joined(segments)[i] in Joined(segments);
      }
    }
  }
}
