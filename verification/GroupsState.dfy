/** The state of the groups layer and what each event of the daemon does to it, as functions. The
    handlers in GroupsLayer are proved to compute these. */
module GroupsState {
  import opened Sequences
  import opened Wire
  import opened Wrappers
  import opened Ordering
  import opened GroupTable
  import opened GroupsCodec
  import opened GroupsMerge
  import opened GroupsWalk
  import opened GroupsRoundTrip
  import opened GroupsAgreement
  import opened SyncedSets

  datatype GState = GOP | GTRANS | GGATHER | GGT

  /** What does not change: the configuration, this daemon, and the daemon each private name is at. */
  datatype Site = Site(conf: seq<ProcId>, my: ProcId, owner: map<Name, ProcId>)

  /** A GROUPS message as delivered: its sender, its place among the sender's messages, whether it is
      AGREED, and from the header the size of the synced set it speaks for. */
  datatype Frame = Frame(sender: ProcId, place: nat, agreed: bool, represents: nat, body: seq<byte>)

  /** The messages kept for one other representative, latest first. */
  datatype Link = Link(rep: ProcId, complete: bool, frames: seq<Frame>)

  /** `held`: the session threshold is raised and the GROUPS down queue is in use. `sessions` is the
      session layer's table of local clients. */
  datatype State = State(
    gstate: GState,
    trans: set<ProcId>, transId: MembId,
    reg: set<ProcId>, regId: MembId,
    groups: Table,
    synced: seq<ProcId>,
    bufs: seq<seq<byte>>, current: bool,
    ownComplete: bool, links: seq<Link>, numMess: nat, numDaemons: nat,
    held: bool,
    sessions: map<Name, Mailbox>)

  /** The state after a handler; what it multicast to each group's local members; the GROUPS messages
      it sent; and the local member and group to which a self-leave message went. */
  datatype Effect = Effect(s: State, notes: map<Name, seq<Note>>, sent: seq<Frame>, selfLeft: set<(Name, Name)>)

  function Quiet(s: State): Effect {
    Effect(s, map[], [], {})
  }

  function NoMemb(): MembId {
    MembId(0, 0)
  }

  function Init(e: Site): State {
    State(GOP, {}, NoMemb(), {}, NoMemb(), map[], [e.my], [], false, false, [], 0, 0, false, map[])
  }

  // ---------------------------------------------------------------- sending the table

  predicate Leads(e: Site, s: State) {
    s.synced != [] && s.synced[0] == e.my
  }

  /** G_build_new_groups_bufs into an empty list: each buffer is put in front of the earlier ones. The
      source does not return when an entry fits no buffer; such tables are not sendable. */
  ghost function Built(e: Site, groups: Table, synced: seq<ProcId>, regId: MembId): seq<seq<byte>> {
    if Sendable(groups, e.conf, synced) then Backwards(Bodies(Walk(groups, e.conf), synced, regId)) else []
  }

  function Backwards<T>(a: seq<T>): (r: seq<T>)
    ensures |r| == |a| && forall i | 0 <= i < |a| :: r[i] == a[|a| - 1 - i]
  {
    if a == [] then [] else Backwards(a[1..]) + [a[0]]
  }

  function Stamped(bufs: seq<seq<byte>>, regId: MembId): (r: seq<seq<byte>>)
    ensures |r| == |bufs|
  {
    if bufs == [] then []
    else [if |bufs[0]| >= 8 then Stamp(bufs[0], regId) else bufs[0]] + Stamped(bufs[1..], regId)
  }

  lemma {:induction false} StampedAt(bufs: seq<seq<byte>>, id: MembId, i: nat)
    requires i < |bufs|
    ensures Stamped(bufs, id)[i] == if |bufs[i]| >= 8 then Stamp(bufs[i], id) else bufs[i]
  {
    if i > 0 {
      StampedAt(bufs[1..], id, i - 1);
    }
  }

  /** G_send_groups_messages: the last one in the list goes out AGREED. */
  function Frames(e: Site, synced: seq<ProcId>, bufs: seq<seq<byte>>): (r: seq<Frame>)
    ensures |r| == |bufs|
    ensures forall i | 0 <= i < |r| :: r[i] == Frame(e.my, i, i == |bufs| - 1, |synced|, bufs[i])
  {
    seq(|bufs|, i requires 0 <= i < |bufs| => Frame(e.my, i, i == |bufs| - 1, |synced|, bufs[i]))
  }

  // ---------------------------------------------------------------- transitional memberships

  ghost function SplitAll(t: Table, trans: set<ProcId>, transId: MembId): Table {
    map n | n in t :: Split(t[n], trans, transId).g
  }

  ghost function SplitNotes(t: Table, trans: set<ProcId>, transId: MembId): map<Name, seq<Note>> {
    map n | n in t :: Split(t[n], trans, transId).notes
  }

  ghost function TransInGop(s: State, trans: set<ProcId>, transId: MembId): Effect
  {
    Effect(s.(gstate := GTRANS, trans := trans, transId := transId, synced := Select(s.synced, trans),
              groups := SplitAll(s.groups, trans, transId)),
           SplitNotes(s.groups, trans, transId), [], {})
  }

  ghost function FlagLosing(g: Group, memb: set<ProcId>): Group {
    if Outside(g, memb) == {} then g else g.(changed := true)
  }

  ghost function FlagAll(t: Table, memb: set<ProcId>): Table {
    map n | n in t :: FlagLosing(t[n], memb)
  }

  ghost function TransInGather(s: State, trans: set<ProcId>, transId: MembId): Effect {
    Quiet(s.(gstate := GGT, trans := trans, transId := transId, groups := FlagAll(s.groups, trans)))
  }

  ghost function HandleTrans(s: State, trans: set<ProcId>, transId: MembId): Effect
    requires s.gstate == GOP || s.gstate == GGATHER
  {
    if s.gstate == GOP then TransInGop(s, trans, transId) else TransInGather(s, trans, transId)
  }

  // ---------------------------------------------------------------- regular memberships

  ghost function Sweep(g: Group): Group {
    if g.changed then Without(g, Partitioned(g)) else g
  }

  /** Partitioned daemons leave the changed groups; a group left without members is removed. */
  ghost function Swept(t: Table): Table {
    map n | n in t && !(t[n].changed && Sweep(t[n]).num == 0) :: Sweep(t[n])
  }

  ghost function SettleAll(t: Table, regId: MembId): Table {
    map n | n in t :: if t[n].changed then Settle(t[n], regId).g else t[n]
  }

  ghost function SettleNotes(t: Table, regId: MembId): map<Name, seq<Note>> {
    map n | n in t :: if t[n].changed then Settle(t[n], regId).notes else []
  }

  ghost function RegInTrans(e: Site, s: State, reg: set<ProcId>, regId: MembId): Effect {
    var t := Swept(s.groups);
    if |s.trans| == |reg| then
      Effect(s.(gstate := GOP, reg := reg, regId := regId, groups := SettleAll(t, regId)), SettleNotes(t, regId), [],
             {})
    else
      var s' := s.(gstate := GGATHER, reg := reg, regId := regId, groups := t, held := true);
      if Leads(e, s) then
        var bufs := Built(e, t, s.synced, regId) + s.bufs;
        Effect(s'.(bufs := bufs, current := true), map[], Frames(e, s.synced, bufs), {})
      else Quiet(s')
  }

  /** The synced set that a message carries, if it does. */
  function SetIn(f: Frame): Option<seq<ProcId>> {
    match GetMsg(f.body)
    case Some(m) => m.synced
    case None => None
  }

  /** The synced set named by the messages of one link, the last one read deciding; `sset` is what an
      earlier link left in the variable. */
  function LinkSynced(frames: seq<Frame>, sset: seq<ProcId>): seq<ProcId>
    decreases |frames|
  {
    if frames == [] then sset
    else
      LinkSynced(frames[1..], match SetIn(frames[0]) case Some(named) => named case None => sset)
  }

  function LinkBodies(frames: seq<Frame>): (r: seq<seq<byte>>) {
    Mapped((f: Frame) => f.body, frames)
  }

  /** Taking in links one after the other: the table, the synced set, and the sset variable. */
  datatype Taken = Taken(groups: Table, synced: seq<ProcId>, sset: seq<ProcId>)

  function TakeLink(e: Site, t: Taken, l: Link): Taken {
    var sset := LinkSynced(l.frames, t.sset);
    Taken(MergeBodies(t.groups, LinkBodies(l.frames)), Merge(e.conf, t.synced, sset), sset)
  }

  function TakeLinks(e: Site, t: Taken, links: seq<Link>): Taken
    decreases |links|
  {
    if links == [] then t else TakeLinks(e, TakeLink(e, t, links[0]), links[1..])
  }

  /** The links consumed when a cascading regular membership arrives. */
  function UsableOf(ownComplete: bool, links: seq<Link>): seq<Link> {
    if ownComplete then CompleteOnes(links) else []
  }

  function Usable(s: State): seq<Link> {
    UsableOf(s.ownComplete, s.links)
  }

  function CompleteOnes(links: seq<Link>): (r: seq<Link>)
    ensures forall l :: l in r <==> l in links && l.complete
  {
    if links == [] then []
    else if links[0].complete then [links[0]] + CompleteOnes(links[1..])
    else CompleteOnes(links[1..])
  }

  ghost predicate Consumes(links: seq<Link>) {
    exists l :: l in links && l.frames != []
  }

  ghost function Shed(g: Group, memb: set<ProcId>): Group {
    if Outside(g, memb) == {} then g else Without(g, Outside(g, memb)).(changed := true)
  }

  /** Daemons outside the membership leave every group. */
  ghost function ShedAll(t: Table, memb: set<ProcId>): Table {
    map n | n in t && !(Outside(t[n], memb) != {} && Shed(t[n], memb).num == 0) :: Shed(t[n], memb)
  }

  ghost predicate NobodyOutside(t: Table, memb: set<ProcId>) {
    forall n | n in t :: Outside(t[n], memb) == {}
  }

  /** The cached buffers survive a cascading membership only if nothing they state changed. */
  ghost predicate StaysFresh(e: Site, s: State) {
    var t := TakeLinks(e, Taken(s.groups, s.synced, []), Usable(s));
    s.current && !Consumes(Usable(s)) && NobodyOutside(t.groups, s.trans) && Among(t.synced) <= s.trans
  }

  /** Links used, lost daemons dropped, bookkeeping cleared; `current` says whether the buffers still
      state the table. */
  ghost function Trimmed(e: Site, s: State, reg: set<ProcId>, regId: MembId): State {
    var t := TakeLinks(e, Taken(s.groups, s.synced, []), Usable(s));
    s.(gstate := GGATHER, reg := reg, regId := regId, groups := ShedAll(t.groups, s.trans),
       synced := Select(t.synced, s.trans),
       ownComplete := false, links := [], numMess := 0, numDaemons := 0, current := StaysFresh(e, s))
  }

  ghost function RegInGgt(e: Site, s: State, reg: set<ProcId>, regId: MembId): Effect {
    var s' := Trimmed(e, s, reg, regId);
    if Leads(e, s') then
      var bufs := if s'.current then Stamped(s.bufs, regId) else Built(e, s'.groups, s'.synced, regId);
      Effect(s'.(bufs := bufs, current := true), map[], Frames(e, s'.synced, bufs), {})
    else Quiet(s')
  }

  ghost function HandleReg(e: Site, s: State, reg: set<ProcId>, regId: MembId): Effect
    requires s.gstate == GTRANS || s.gstate == GGT
  {
    if s.gstate == GTRANS then RegInTrans(e, s, reg, regId) else RegInGgt(e, s, reg, regId)
  }

  // ---------------------------------------------------------------- GROUPS messages

  predicate StampedWith(f: Frame, memb: MembId) {
    |f.body| >= 8 && GetMembId(f.body[..8]) == memb
  }

  function LinkIndex(links: seq<Link>, rep: ProcId): (i: nat)
    ensures i <= |links|
    ensures i < |links| ==> links[i].rep == rep
    ensures forall j | 0 <= j < i :: links[j].rep != rep
  {
    if links == [] || links[0].rep == rep then 0 else 1 + LinkIndex(links[1..], rep)
  }

  /** The frame joins its sender's link, which is created in front if there is none. */
  function Filed(links: seq<Link>, f: Frame): seq<Link> {
    var i := LinkIndex(links, f.sender);
    if i == |links| then [Link(f.sender, f.agreed, [f])] + links
    else links[i := links[i].(complete := links[i].complete || f.agreed, frames := [f] + links[i].frames)]
  }

  /** Bookkeeping for a message of the current membership. */
  function Recorded(s: State, f: Frame): State {
    var own := s.synced != [] && s.synced[0] == f.sender;
    s.(numMess := s.numMess + 1,
       numDaemons := s.numDaemons + (if f.agreed then f.represents else 0),
       ownComplete := s.ownComplete || (own && f.agreed),
       links := if own then s.links else Filed(s.links, f))
  }

  ghost function ConcludeNotes(t: Table, regId: MembId): map<Name, seq<Note>> {
    map n | n in t :: if t[n].changed then Conclude(t[n], regId).notes else []
  }

  /** G_compute_and_notify. */
  ghost function Compute(e: Site, s: State): Effect {
    var t := TakeLinks(e, Taken(s.groups, s.synced, []), s.links);
    Effect(s.(groups := Finish(t.groups, s.regId), synced := t.synced, bufs := [], current := false,
              ownComplete := false, links := [], numMess := 0, numDaemons := 0),
           ConcludeNotes(t.groups, s.regId), [], {})
  }

  ghost function Both(a: map<Name, seq<Note>>, b: map<Name, seq<Note>>): map<Name, seq<Note>> {
    map n | n in a.Keys + b.Keys :: (if n in a then a[n] else []) + (if n in b then b[n] else [])
  }

  predicate Relevant(e: Site, s: State, f: Frame) {
    StampedWith(f, s.regId) && f.sender in e.conf
  }

  ghost function HandleGroups(e: Site, s: State, f: Frame): Effect
    requires s.gstate == GGATHER || s.gstate == GGT
  {
    if !Relevant(e, s, f) then Quiet(s)
    else
      var s1 := Recorded(s, f);
      if s1.numDaemons != |s1.reg| then Quiet(s1)
      else
        var c := Compute(e, s1.(held := false));
        if s.gstate == GGATHER then Effect(c.s.(gstate := GOP), c.notes, [], {})
        else
          var r := TransInGop(c.s.(gstate := GOP), s.trans, s.transId);
          Effect(r.s, Both(c.notes, r.notes), [], {})
  }

  // ---------------------------------------------------------------- members

  /** The mark of a daemon new to group g: partitioned exactly if it is outside in GTRANS. */
  predicate Here(s: State, p: ProcId) {
    s.gstate == GOP || p in s.trans
  }

  ghost function HandleJoin(e: Site, s: State, m: Name, group: Name): Effect
    requires s.gstate == GOP || s.gstate == GTRANS
  {
    if m !in e.owner then Quiet(s)
    else
      var p := e.owner[m];
      var g := if group in s.groups then s.groups[group]
               else Blank(GroupId(if s.gstate == GOP then s.regId else s.transId, 0));
      if p in g.daemons && m in g.daemons[p].members then Quiet(s)
      else if p == e.my && m !in s.sessions then Quiet(s)
      else
        var o := Admit(g, if Here(s, p) then g.id.memb else UNKNOWN, p, m, if p == e.my then [s.sessions[m]] else []);
        Effect(s.(groups := s.groups[group := o.g]), map[group := o.notes], [], {})
  }

  predicate IsMember(e: Site, t: Table, m: Name, n: Name) {
    m in e.owner && n in t && e.owner[m] in t[n].daemons && m in t[n].daemons[e.owner[m]].members
  }

  ghost function Mboxes(e: Site, s: State, m: Name, g: Group): seq<Mailbox> {
    if m in e.owner && e.owner[m] == e.my && m in s.sessions && s.sessions[m] in g.mboxes
    then Unpost(g.mboxes, s.sessions[m]) else g.mboxes
  }

  ghost function Dismissed(e: Site, s: State, m: Name, n: Name, cause: Cause): Outcome
    requires IsMember(e, s.groups, m, n)
  {
    Dismiss(s.groups[n], e.owner[m], m, Mboxes(e, s, m, s.groups[n]), cause)
  }

  ghost function HandleLeave(e: Site, s: State, m: Name, group: Name): Effect
    requires s.gstate == GOP || s.gstate == GTRANS
  {
    if !IsMember(e, s.groups, m, group) then Quiet(s)
    else
      var o := Dismissed(e, s, m, group, ByLeave);
      var told := if e.owner[m] == e.my then {(m, group)} else {};
      if o.g.num == 0 then Effect(s.(groups := s.groups - {group}), map[], [], told)
      else Effect(s.(groups := s.groups[group := o.g]), map[group := o.notes], [], told)
  }

  ghost predicate Vanishes(e: Site, s: State, m: Name, n: Name) {
    IsMember(e, s.groups, m, n) && Dismissed(e, s, m, n, ByDisconnect).g.num == 0
  }

  ghost function KilledTable(e: Site, s: State, m: Name): Table {
    map n | n in s.groups && !Vanishes(e, s, m, n) ::
      if IsMember(e, s.groups, m, n) then Dismissed(e, s, m, n, ByDisconnect).g else s.groups[n]
  }

  ghost function KilledNotes(e: Site, s: State, m: Name): map<Name, seq<Note>> {
    map n | n in s.groups && IsMember(e, s.groups, m, n) && !Vanishes(e, s, m, n) ::
        Dismissed(e, s, m, n, ByDisconnect).notes
  }

  ghost function HandleKill(e: Site, s: State, m: Name): Effect
    requires s.gstate == GOP || s.gstate == GTRANS
  {
    Effect(s.(groups := KilledTable(e, s, m)), KilledNotes(e, s, m), [], {})
  }
}
