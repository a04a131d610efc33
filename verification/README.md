# Process groups, timers, queues and INI files: a verified model

This project models the process-group layer of the Spread daemon and five smaller parts of the same code
base, and proves what they promise. `dafny verify dfyconfig.toml` checks all of it.

## The group layer

A daemon keeps a table of groups; each group has the daemons with members in it, each daemon its members. A
client's join, leave or disconnect changes one or all groups. When the network splits or heals, the daemon gets a
transitional and then a regular membership, and moves through four states: GOP (operation), GTRANS (between the
two memberships), GGATHER (exchanging tables with daemons that were elsewhere) and GGT (interrupted exchange).
In an exchange each set of daemons that stayed together (a synced set) lets its first member send the table,
split over bounded buffers; everyone merges everyone's and gives the groups that changed a new id.

| file | what it holds |
|---|---|
| Wire, Wrappers, Sequences, Ordering | bytes and fields, options, sequence facts, the two orders of the skip lists |
| GroupTable | groups, and what a join, leave, split or settling does to one of them |
| GroupsCodec, GroupsBuffers, GroupsWalk, GroupsMerge, GroupsRoundTrip | GROUPS messages: fields, splitting over buffers, the walk over the table, merging, and the round trip |
| GroupsTransfer, WireLayout | the writers over byte arrays; where each field of a message lies |
| Configuration, SyncedSets | order and membership queries; the synced set as a list and as an array |
| GroupsState | the state and the effect of every event as functions |
| GroupsStore, GroupsLayer | the table and the layer as classes; the handlers compute those functions |
| GroupsDuty, GroupsLimit | what the handlers rely on holds in every reachable state; the member limit |
| GroupsInvariant, GroupsSafety, GroupsExchange, GroupsRun, GroupsCompletion, GroupsGather, GroupsCascade, GroupsReachable | the invariant of every run, the exchange and its end, the buffer cache |
| GroupsEffects, GroupsTold | what clients see of each event: who is in which group afterwards, and what its local members are told |
| GroupsAgreement, GroupsReplicas, GroupsTwins, GroupsFleet | what daemons have in common after, between and across exchanges; all daemons of a membership together |
| VsSets, VsMessage, MembInfo, VsTold, VsTell, VsJoiner, Mailboxes | the virtual-synchrony sets, the message that carries them, the client library's reader of it (sp.c), what it reads, building the message from a group, the joiner's place in it, the mailbox array |

A run is any sequence of events that the environment may deliver (`GroupsRun.Enabled`). About the environment
it is assumed that events come only in states whose handlers accept them (the others are fatal); that memberships
hold this daemon and a transitional one is part of what came before; that membership ids are not those the layer
uses for "unknown"; that the GROUPS messages of an exchange come once each, a sender's AGREED one after its
others; and that the tables sent are those of well-formed daemons whose synced sets are apart, an unchanged group
having one index under one membership id. What is assumed of the others is proved of the daemons themselves:
`LeaderKeepsItsPart` that they send such a table, `AgreementLasts` and `AgreementLastsThroughCascade` that the daemons
of a set have replicas of it, `CascadeKeepsSets` that synced sets stay apart, and `MembershipFormsExchange` puts these
together: when a regular membership is delivered to all its daemons, their leaders' messages are one well-formed exchange
in which every daemon takes part. That lemma asks that daemons with a common transitional membership got the same events
in it (extended virtual synchrony), that the tables fit buffers, and that an unchanged group keeps one index.

The handlers' loops over all groups are order independent and run over the names of a map. Notifications are values
that say what is multicast to a group's local members. The step functions cover messages that cannot be parsed by
leaving the table alone; the reading loops of the source read on, and their methods ask for readable messages, which
`GroupsDuty` shows is what they get.

Where the code is not what its comments or constants suggest, the code is modelled. The limit on a group's local members
leaves out the message header, so at the limit, which joins may reach, a table cannot be sent and the build loop would
not end (`LimitMissesHeader`, `TableIsSentIff`, `LimitIsLetIn`). A joiner that is alone at its daemon, which came with no
other, leaves an empty set in the membership message; no other message has one (`EmptySetIff`, `AnnouncedEmptySetIff`).

## The smaller parts

- `Timers`, `FdTables`, `FdEntries`, `EventLoop`, `RoundRobin` (events.c): the sorted timer list as a linked list, the
  descriptor tables with cached masks and what each call does to every entry, the round-robin scan. `E_add_time` carries
  at more than a million microseconds, not at a million, so a second has two spellings (`SecondHasTwoSpellings`);
  attaching a deactivated pair again does not set its mask bit (`RevivalLosesBit`). The guards accept a priority, type or
  descriptor one too high; the functions then answer that the call writes behind the tables, and `BehindIff` and
  `WithinStays` say when (bits of a mask as on Unix).
- `Scatters` (message.c): fragmentation into packet bodies, locations in it, and taking over buffers.
- `FifoQueue`, `Dispatcher` (syncFifoQueue.h, dispatcher.cpp): the bounded queue as a monitor whose sections are atomic
  steps of threads that may be idle, running or waiting, with spurious wake-ups; and a worker that routes into it.
  `reset` notifies nobody, and `ResetKeepsIff` says exactly when that matters.
- `NoLockPool`: the slot pool with its bounded release queue.
- `IniText`, `IniParse`, `IniLines`, `IniView`, `IniLookup`, `IniRoundTrip`, `IniWritten`, `IniBlocks`, `IniReader`,
  `IniOrder`, `IniStore` (SimpleIni.h): the text of an INI file, what is found in each kind of line and what is written
  line by line, the parser as a function on the rest of the text and as a loop over the loader's buffer, multi-line
  values compacted in place, the store's maps with load orders, looking names up, and saving. Contents are well formed
  (`IniRoundTrip.WellFormed`) if names differ and hold nothing that would end them, keys without a section come first
  and are not none, and values are good; `ValueSurvivesIff` shows that a value that is not good is not read back.

## Model

| member | source | states |
|---|---|---|
| GroupsReachable.EveryRunIsSafe | Network/spread-4.1_OLD/daemon/groups.c:305-1547 | in every state that any run of the layer reaches: head counts are the sums of the member lists, no group or daemon entry is empty, an unchanged group has all daemons under its own membership id, partitioned marks occur only in GTRANS and only in changed groups, GOP has no changed group, mailboxes are one-to-one with local members, the synced set is in configuration order with this daemon in it and equals the membership in GOP, and nothing is gathered outside an exchange |
| GroupsReachable.EventKeeps | Network/spread-4.1_OLD/daemon/groups.c:305-1126 | each event that the handlers accept keeps that invariant, with the bookkeeping of the exchange, the replica and the buffer cache |
| GroupsReachable.RunsKeep | Network/spread-4.1_OLD/daemon/groups.c:305-1126 | so does every sequence of events from any state that satisfies it |
| GroupsReachable.EndsWithLastMessage | Network/spread-4.1_OLD/daemon/groups.c:1356-1466 | a daemon goes on waiting after a GROUPS message if and only if some representative of the exchange has not yet had its AGREED message handled |
| GroupsGather.CompletionIsDetected | Network/spread-4.1_OLD/daemon/groups.c:1411-1439 | the daemons counted are all of the membership if and only if every representative is done |
| GroupsGather.RecordedKeeps | Network/spread-4.1_OLD/daemon/groups.c:1356-1433 | after each relevant message the links, their complete flags, the own-set flag and both counters say exactly which messages have arrived |
| GroupsGather.FullMerge | Network/spread-4.1_OLD/daemon/groups.c:1483-1500 | when all are done, merging the links adds exactly every other representative's table, each once, and syncs the whole membership |
| GroupsCascade.FreshBuffersAreCurrent | Network/spread-4.1_OLD/daemon/groups.c:479-546 | whenever a cascading membership finds the cached buffers marked fresh, restamping them gives byte for byte what a new build of the table would give, changed flags included |
| GroupsCascade.StampedBuild | Network/spread-4.1_OLD/daemon/groups.c:2001-2027 | a build under one membership id, restamped with another, is the build under the other |
| GroupsCascade.RegInGgtKeeps | Network/spread-4.1_OLD/daemon/groups.c:455-551 | a cascading regular membership keeps the invariant, whichever links were complete |
| GroupsAgreement.Agreement | Network/spread-4.1_OLD/daemon/groups.c:1470-1547 | two daemons that take in the tables of one exchange, from any local replica and in any order, end with the same groups, daemons, members, counts and ids, and gave the new id to the same groups |
| GroupsReplicas.DaemonsAgree | Network/spread-4.1_OLD/daemon/groups.c:1440-1547 | two daemons that complete one exchange in GGATHER hold the same view of every group |
| GroupsReplicas.DaemonsAgreeThroughCascade | Network/spread-4.1_OLD/daemon/groups.c:555-689 | the same holds after the next transitional membership, whether it came before or after the last GROUPS message at either daemon |
| GroupsReplicas.CascadeAgreement | Network/spread-4.1_OLD/daemon/groups.c:635-681 | flagging groups early, at one daemon only, does not change the table that both end with |
| GroupsReplicas.DaemonsAgreeOnSet | Network/spread-4.1_OLD/daemon/groups.c:2551-2608 | daemons with one installed membership have one synced set, and so one leader |
| GroupsReplicas.LeaderKeepsItsPart | Network/spread-4.1_OLD/daemon/groups.c:428-440 | what a leader sends at the start of an exchange is a well-formed contribution: what the others are assumed to send is proved of the own daemon |
| GroupsReplicas.RegSends | Network/spread-4.1_OLD/daemon/groups.c:428-546 | a leader sends exactly the buffers it keeps, which are a build of its table under the new id; others send nothing |
| GroupsExchange.FramesAreStamped | Network/spread-4.1_OLD/daemon/groups.c:1358-1375 | a message is stamped with the membership id it was built for and with no other, so one that belongs to another exchange is never counted |
| GroupsTwins.StepKeepsTwins | Network/spread-4.1_OLD/daemon/groups.c:305-1468 | two daemons with one view, one synced set and the same messages filed keep all that through every event that both get, in every state, the messages of an exchange and its end included, and through their own sessions' opening and closing |
| GroupsTwins.CompletionMakesTwins | Network/spread-4.1_OLD/daemon/groups.c:1440-1547 | completing one exchange in GGATHER leaves two daemons with one view, one membership and one synced set |
| GroupsTwins.CascadeMakesTwins | Network/spread-4.1_OLD/daemon/groups.c:635-681 | so does completing it with the next transitional membership delivered, in every case: after the last GROUPS message or before it, at either daemon |
| GroupsTwins.AgreementLasts | Network/spread-4.1_OLD/daemon/groups.c:305-1547 | from a common exchange that both complete in GGATHER, two daemons that get the same events, further exchanges and cascades included, have one view of every group, one synced set and replicas of one table |
| GroupsTwins.AgreementLastsThroughCascade | Network/spread-4.1_OLD/daemon/groups.c:305-1547 | the same from the transitional membership on, for daemons at one or both of which it overtook the last GROUPS message |
| GroupsTwins.ShedTablesAlike | Network/spread-4.1_OLD/daemon/groups.c:479-523 | tables gathered from the same representatives are replicas once the lost daemons are dropped, whatever was flagged early and in whatever order they were gathered |
| GroupsTwins.CascadeKeepsSets | Network/spread-4.1_OLD/daemon/groups.c:479-528 | two daemons that leave an interrupted exchange together, with any set of messages handled, have either the same synced set and replicas of one table, or synced sets without a common member |
| GroupsFleet.MembershipFormsExchange | Network/spread-4.1_OLD/daemon/groups.c:305-553 | when a regular membership is delivered to all its daemons and none goes back to operation at once, what their leaders send is one well-formed exchange, and every daemon takes the membership as the beginning of it: what is assumed about the senders of an exchange holds of daemons that come from the exchange before |
| GroupsLayer.Layer.constructor | Network/spread-4.1_OLD/daemon/groups.c:246-303 | the initial state: GOP, no groups, a synced set of this daemon alone |
| GroupsLayer.Layer.HandleTransMemb | Network/spread-4.1_OLD/daemon/groups.c:555-689 | the loop over the groups and the state variables end as the transition function says, with its notifications |
| GroupsLayer.Layer.HandleRegMemb | Network/spread-4.1_OLD/daemon/groups.c:305-553 | the same for a regular membership in GTRANS and in GGT: groups, synced set, links, buffers, freshness, messages sent |
| GroupsLayer.Layer.HandleGroupsMess | Network/spread-4.1_OLD/daemon/groups.c:1323-1468 | the same for a GROUPS message: filed, counted, and the exchange concluded when it is the last |
| GroupsLayer.Layer.ComputeAndNotify | Network/spread-4.1_OLD/daemon/groups.c:1470-1547 | links merged one by one into table and synced set, changed groups told and then settled under the new id: the effect of which CompletionTells says what it is |
| GroupsLayer.Layer.HandleJoinMess | Network/spread-4.1_OLD/daemon/groups.c:691-875 | a join: who is entered where, under which mark, with which index and flag, and what is told |
| GroupsLayer.Layer.HandleLeaveMess | Network/spread-4.1_OLD/daemon/groups.c:877-1012 | a leave: member, empty daemon and empty group removed, mailbox dropped, what is told: the effect of which LeaveRemoves says what it is |
| GroupsLayer.Layer.HandleKillMess | Network/spread-4.1_OLD/daemon/groups.c:1014-1126 | a disconnect: the same in every group at once |
| GroupsTold.CompletionTells | Network/spread-4.1_OLD/daemon/groups.c:1470-1547 | the last message of an exchange makes of every group what the tables of all synced sets have of it together: the same members at the same daemons; a group changed somewhere, or known under two membership ids, gets the id (new membership, 1) and its local members are told once, with the daemons marked as they came; the others stay and are told nothing |
| GroupsTold.CameTogether | Network/spread-4.1_OLD/daemon/groups.c:1535-1536 | in that message two members share a set if and only if they are at one daemon or their daemons came with one membership id: the group is told before its daemons take the new one |
| GroupsTold.CameOnce | Network/spread-4.1_OLD/daemon/groups.c:1470-1547 | a daemon comes to a group from one synced set only, so the id that it came with is one |
| GroupsTold.CompletionSplits | Network/spread-4.1_OLD/daemon/groups.c:1440-1466 | with a transitional membership waiting, every group is first concluded and told that, and then split and told that |
| GroupsTold.WaitingTellsNobody | Network/spread-4.1_OLD/daemon/groups.c:1411-1439 | a message that is not the last changes no group and tells nobody |
| GroupsTold.CascadeTakesOut | Network/spread-4.1_OLD/daemon/groups.c:455-551 | a regular membership that interrupts an exchange: every group has the members that the sets held so far have in it, without those at lost daemons; a group with no others is gone, one that lost daemons is marked changed; nobody is told |
| GroupsEffects.TransSplits | Network/spread-4.1_OLD/daemon/groups.c:569-627 | a transitional membership in operation takes nobody out; a group with daemons outside gets the id (transitional membership, 1), daemons outside lose theirs and the others take the new one; its local members are told under the old id, and nobody else is told |
| GroupsEffects.TransFlags | Network/spread-4.1_OLD/daemon/groups.c:635-681 | during an exchange it only marks as changed the groups that will lose daemons |
| GroupsEffects.RegTakesOut | Network/spread-4.1_OLD/daemon/groups.c:326-445 | a regular membership in GTRANS takes out exactly the members at daemons that were lost, and the groups that had no others; if nobody is new every changed group settles under (new membership, 1), all its daemons carry that id and its local members are told; otherwise nobody is told |
| GroupsEffects.JoinSeats | Network/spread-4.1_OLD/daemon/groups.c:691-875 | a join enters exactly that member at its daemon in exactly that group, made under the membership's id if it is new; the index counts it, a daemon new to the group is marked by where it is, and the local members get the joiner's message with sets if the group is changed, without if not |
| GroupsEffects.JoinOfMember | Network/spread-4.1_OLD/daemon/groups.c:738-815 | a join by one who is there, or by a name of no known daemon, changes nothing |
| GroupsEffects.LeaveRemoves | Network/spread-4.1_OLD/daemon/groups.c:877-1012 | a leave takes exactly that member out of exactly that group, which is gone if and only if nobody else is in it; otherwise the index counts it and the local members are told, with sets if the group is changed; a local leaver, and no other, is sent a message of its own |
| GroupsEffects.LeaveOfOther | Network/spread-4.1_OLD/daemon/groups.c:914-942 | a leave by one who is not a member changes nothing |
| GroupsEffects.KillRemoves | Network/spread-4.1_OLD/daemon/groups.c:1014-1126 | a disconnect does that in every group that the member is in, and nothing in the others |
| GroupsDuty.CascadeCanMerge | Network/spread-4.1_OLD/daemon/groups.c:479-500 | in every reachable state the messages to be merged on a cascade are readable and name new sets: the fatal branches are not taken |
| GroupsDuty.CompletionCanMerge | Network/spread-4.1_OLD/daemon/groups.c:1483-1499 | the same when the exchange completes |
| GroupsDuty.DiscardedIsEmpty | Network/spread-4.1_OLD/daemon/groups.c:2715-2733 | a group discarded by a regular membership for having no members left has no daemon entry and no mailbox left |
| GroupsDuty.DismissedIsEmpty | Network/spread-4.1_OLD/daemon/groups.c:2715-2733 | nor has one discarded by a leave or a disconnect |
| GroupsDuty.GroupCanBeTold | Network/spread-4.1_OLD/daemon/groups.c:1661-1816 | every group of a reachable state meets what building a membership message asks, and one with mailboxes has this daemon among its daemons |
| GroupsSafety.TransInGopKeeps | Network/spread-4.1_OLD/daemon/groups.c:569-627 | a transitional membership in GOP keeps the invariant of the layer |
| GroupsSafety.RegInTransKeeps | Network/spread-4.1_OLD/daemon/groups.c:326-445 | a regular membership in GTRANS keeps it |
| GroupsSafety.TransInGatherKeeps | Network/spread-4.1_OLD/daemon/groups.c:635-681 | a transitional membership during an exchange keeps it |
| GroupsSafety.JoinKeeps | Network/spread-4.1_OLD/daemon/groups.c:691-875 | a join keeps it |
| GroupsSafety.LeaveKeeps | Network/spread-4.1_OLD/daemon/groups.c:877-1012 | a leave keeps it |
| GroupsSafety.KillKeeps | Network/spread-4.1_OLD/daemon/groups.c:1014-1126 | a disconnect keeps it |
| GroupsInvariant.SplitKeeps | Network/spread-4.1_OLD/daemon/groups.c:584-620 | splitting one group keeps its count, its mailboxes and its marks right |
| GroupsInvariant.DismissKeeps | Network/spread-4.1_OLD/daemon/groups.c:877-1012 | taking a member out of one group does |
| GroupsInvariant.AbsorbKeeps | Network/spread-4.1_OLD/daemon/groups.c:2073-2248 | taking in a table of other daemons' groups does |
| GroupsRoundTrip.BuildRoundTrip | Network/spread-4.1_OLD/daemon/groups.c:1841-2015 | reading all buffers of one build, in any order, into an empty table gives every group, daemon and member list exactly once, daemons under the group's id, flags kept |
| GroupsRoundTrip.ReceivingIsAbsorbing | Network/spread-4.1_OLD/daemon/groups.c:2073-2248 | into any table: reading the buffers, in any order, adds exactly the sender's table |
| GroupsRoundTrip.OrderIsImmaterial | Network/spread-4.1_OLD/daemon/groups.c:2073-2248 | the order in which the buffers of one build are read does not matter, even when a group is split over several |
| GroupsCodec.MessageRoundTrip | Network/spread-4.1_OLD/daemon/groups.c:1841-1999 | a message body is read back field by field as it was written |
| GroupsCodec.StampReplacesId | Network/spread-4.1_OLD/daemon/groups.c:2018-2027 | stamping changes the membership id of a message and nothing else |
| WireLayout.MessageLayout | Network/spread-4.1_OLD/daemon/groups.c:1866-1890 | by bytes and offsets: where each field of a GROUPS message lies, lowest byte first |
| WireLayout.MembershipLayout | Network/spread-4.1_OLD/daemon/groups.c:1718-1734 | the same for the data of a membership message: id, number of sets, own offset, and each set's size and names |
| GroupsBuffers.BuildTerminates | Network/spread-4.1_OLD/daemon/groups.c:2001-2015 | the build loop ends if and only if every daemon's entry fits, with preamble, group info and message header, a later buffer of its own |
| GroupsBuffers.LimitMissesHeader | Network/spread-4.1_OLD/daemon/groups.h:52-55 | an entry fits such a buffer if and only if it has fewer members than the limit that joins are checked against: at the limit the header has no room |
| GroupsLimit.TableIsSentIff | Network/spread-4.1_OLD/daemon/groups.c:2001-2015 | in every reachable state whose synced set fits a buffer, the build loop over the whole table ends if and only if every daemon has fewer members than the limit in every group |
| GroupsLimit.LimitIsLetIn | Network/spread-4.1_OLD/daemon/session.c:1368-1383 | as many local clients as the limit says may join a group one after the other, each let pass by the check against the limit, and the table they leave cannot be sent |
| GroupsLimit.LocalsCounted | Network/spread-4.1_OLD/daemon/groups.c:2543-2548 | the mailboxes counted for that check are as many as the group's local members |
| GroupsBuffers.MessagesStayInBounds | Network/spread-4.1_OLD/daemon/groups.c:1926-1957 | every message of a build fits GROUPS_BUF_SIZE together with its header |
| GroupsBuffers.Batches | Network/spread-4.1_OLD/daemon/groups.c:2001-2015 | a build makes at least one and at most one buffer more than there are daemon entries |
| GroupsBuffers.BuffersCoverTable | Network/spread-4.1_OLD/daemon/groups.c:1916-1998 | the entries in the buffers, in the order built, are the entries of the table |
| GroupsBuffers.FillTakesPrefix | Network/spread-4.1_OLD/daemon/groups.c:1916-1998 | one buffer takes a prefix of the pending entries and leaves the others |
| GroupsBuffers.FillIsGreatest | Network/spread-4.1_OLD/daemon/groups.c:1916-1975 | a buffer leaves something only if it has no room for what comes next: the next group's header, or the next daemon of the group that it cuts |
| GroupsTransfer.BuildGroupsBuf | Network/spread-4.1_OLD/daemon/groups.c:1841-1999 | the writer fills its byte array with exactly the encoded message, counts patched in place, and leaves off where the next buffer goes on |
| GroupsTransfer.BuildNewGroupsBufs | Network/spread-4.1_OLD/daemon/groups.c:2001-2015 | the list of buffers ends as the encoded messages of the build, latest first |
| GroupsTransfer.WalkTable | Network/spread-4.1_OLD/daemon/groups.c:1916-1998 | the walk over groups and daemons meets each once, names in order and daemons in configuration order |
| GroupsStore.GroupsList.MessToGroups | Network/spread-4.1_OLD/daemon/groups.c:2073-2248 | the reading loops change the table exactly as merging the message does, and return the synced set named in it |
| GroupsStore.GroupsList.EliminatePartitionedDaemons | Network/spread-4.1_OLD/daemon/groups.c:2632-2670 | exactly the partitioned daemons, or those outside the transitional membership, are dropped with their members; says whether any was |
| GroupsStore.GroupsList.ChangedByCascade | Network/spread-4.1_OLD/daemon/groups.c:2674-2690 | true if and only if some daemon of the group is outside the transitional membership; changes nothing |
| GroupsStore.GroupsList.UpdateDaemonMembIds | Network/spread-4.1_OLD/daemon/groups.c:2755-2767 | every daemon that is not partitioned takes the group's membership id |
| GroupsWalk.MergingIsAbsorbing | Network/spread-4.1_OLD/daemon/groups.c:2099-2246 | merging any list of records that states a table adds that table |
| GroupsMerge.MergeChunksAddsUp | Network/spread-4.1_OLD/daemon/groups.c:2099-2246 | what a list of records does to one group: rows, count, flag and id, independent of how the list is cut |
| Wire.RoundTrip32 | Network/spread-4.1_OLD/daemon/groups.c:1841-1999 | 32-bit fields survive writing and reading, negative ones included |
| SyncedSets.MergeHolds | Network/spread-4.1_OLD/daemon/groups.c:2551-2583 | the merged set has the members of both |
| SyncedSets.MergeInOrder | Network/spread-4.1_OLD/daemon/groups.c:2551-2583 | merging two disjoint sets in configuration order gives a set in configuration order |
| SyncedSets.OrderedIsUnique | Network/spread-4.1_OLD/daemon/groups.c:2551-2608 | a set in configuration order is determined by its members |
| SyncedSets.LeaderIsFirst | Network/spread-4.1_OLD/daemon/groups.c:84 | the head of the synced set is the member that comes first in the configuration |
| SyncedSets.SyncedSet.Add | Network/spread-4.1_OLD/daemon/groups.c:2551-2583 | the array holds the ordered merge |
| SyncedSets.SyncedSet.UpdateStatus | Network/spread-4.1_OLD/daemon/groups.c:2594-2608 | the array keeps, in order, exactly the members that are in the membership, and the result says whether any was lost |
| Configuration.FindById | Network/spread-4.1_OLD/daemon/configuration.c:506-522 | the first entry with the address, or -1 |
| Configuration.FoundIffMember | Network/spread-4.1_OLD/daemon/configuration.c:650-658 | a processor is found in a configuration if and only if it is a member of it |
| Configuration.LookupGivesPlace | Network/spread-4.1_OLD/daemon/configuration.c:506-522 | lookup by any address of a processor gives its place, and places are as the order used by the groups layer |
| Configuration.CountIsSize | Network/spread-4.1_OLD/daemon/configuration.c:660-669 | the processors counted are the members |
| VsMessage.SetsPartitionGroup | Network/spread-4.1_OLD/daemon/groups.c:1661-1816 | the virtual-synchrony sets list every member of the group exactly once, and their sizes add up to the head count |
| VsMessage.ShareSetIff | Network/spread-4.1_OLD/daemon/groups.c:1749-1794 | two members other than the joiner are in one set if and only if they are at one daemon or their daemons carry the same known membership id |
| VsMessage.LocalSetFound | Network/spread-4.1_OLD/daemon/groups.c:1764-1770 | the local offset points at the set with the members of this daemon |
| VsMessage.JoinerSetFound | Network/spread-4.1_OLD/daemon/groups.c:1267-1281 | the offset patched in for the joiner points at its own final set |
| VsJoiner.EmptySetIff | Network/spread-4.1_OLD/daemon/groups.c:1772-1809 | a message to a group without empty daemon entries has an empty set if and only if the joiner is the only member at its daemon and no other daemon carries that one's membership id, or the id is unknown |
| VsJoiner.NoEmptySet | Network/spread-4.1_OLD/daemon/groups.c:1739-1794 | a message without a joiner to such a group has no empty set |
| VsJoiner.AnnouncedEmptySetIff | Network/spread-4.1_OLD/daemon/groups.c:691-875 | the same of every join that is announced with sets in a reachable state |
| VsJoiner.PartitionedJoinerLeavesEmptySet | Network/spread-4.1_OLD/daemon/groups.c:771-864 | such joins happen: the first member at a partitioned daemon joins a group with local members |
| VsMessage.BuildMembVsBuf | Network/spread-4.1_OLD/daemon/groups.c:1661-1816 | the writer fills its byte array with names, id, local offset and sets, counts and offset patched in place |
| VsTell.BuildFor | Network/spread-4.1_OLD/daemon/groups.c:1618-1816 | what the client library reads of the buffer: in front, every member once, by configuration order and name; the group's id; sets that list every member but the joiner once, by membership id, configuration order and name, two of them in one set if and only if they are at one daemon or their daemons carry one known id; the joiner alone in the last set; and as its own set that of this daemon |
| VsTell.PointToJoiner | Network/spread-4.1_OLD/daemon/groups.c:1266-1281 | in the copy for a local joiner the client library reads the same, and the joiner's own set as its own |
| MembInfo.GetVsSetsInfo | Network/spread-4.1_OLD/libspread/sp.c:1875-1903 | the client library's loop over the sets of a message: sizes, places of the names, and which set is the receiver's |
| MembInfo.DataReadsBack | Network/spread-4.1_OLD/libspread/sp.c:1838-1925 | what the client library reads of the data that the daemon wrote: the id, every set, and the set whose offset was written as its own |
| VsTold.WalkInOrder | Network/spread-4.1_OLD/daemon/groups.c:202-256 | the walk by membership id has every daemon behind those with a lesser id, unknown ones last, and by configuration order among equals; members by name |
| VsTell.RoomOfGroup | Network/spread-4.1_OLD/daemon/groups.c:1618-1816 | the room the message needs: every name twice, a size for every daemon, and the fixed fields |
| VsMessage.OffsetLocates | Network/spread-4.1_OLD/daemon/groups.c:1661-1816 | reading at the offset of the k-th set gives the k-th set |
| VsSets.SetsListAll | Network/spread-4.1_OLD/daemon/groups.c:1661-1816 | the sets list all names, whether or not one of them joins |
| VsSets.ListedTogether | Network/spread-4.1_OLD/daemon/groups.c:202-238 | in the order of the daemons two of them open one set if and only if they carry the same known id |
| VsSets.ByMembIsOrdered | Network/spread-4.1_OLD/daemon/groups.c:202-238 | sorting the daemons brings equal ids together |
| Mailboxes.MailboxArray.Remove | Network/spread-4.1_OLD/daemon/groups.c:2736-2751 | the last mailbox takes the place of the one removed |
| GroupTable.UnpostRemovesOne | Network/spread-4.1_OLD/daemon/groups.c:2736-2751 | removal takes away one occurrence and keeps the others |
| Timers.ClockIsExact | Network/spread-4.1_OLD/daemon/events.c:161-188 | adding and subtracting times is exact in microseconds and stays within 0 to 1000000 |
| Timers.CompareIsReal | Network/spread-4.1_OLD/daemon/events.c:190-197 | comparison tells the order of real time if and only if equal times are spelled alike; it never contradicts real time |
| Timers.SecondHasTwoSpellings | Network/spread-4.1_OLD/daemon/events.c:176-188 | half a second twice is 0 s 1000000 us, which compares below 1 s |
| Timers.RequeueKeeps | Network/spread-4.1_OLD/daemon/events.c:199-287 | queueing keeps the list sorted, with one event per function, code and data; it replaces only that one and keeps the order of the others |
| Timers.PutPlaces | Network/spread-4.1_OLD/daemon/events.c:199-287 | the new event stands behind all that are not later and before all that are later |
| Timers.SortedIsChronological | Network/spread-4.1_OLD/daemon/events.c:199-287 | in a list of times in range an event never stands behind one that is due later |
| Timers.TimeQueue.Queue | Network/spread-4.1_OLD/daemon/events.c:199-287 | the single pass over the linked list, deleting and inserting on its way, ends with that list |
| Timers.TimeQueue.Dequeue | Network/spread-4.1_OLD/daemon/events.c:289-330 | takes out the event of that function, code and data, if there is one |
| FdTables.AttachKeeps | Network/spread-4.1_OLD/daemon/events.c:350-412 | attaching, where it stays within the tables, keeps the counts and the meaning of mask bits, and loses the converse if and only if the pair is registered already, is to be watched and has no bit |
| FdTables.RevivalLosesBit | Network/spread-4.1_OLD/daemon/events.c:375-391 | a pair that was deactivated and is attached again is active without a mask bit |
| FdTables.DetachKeeps | Network/spread-4.1_OLD/daemon/events.c:414-446 | detaching keeps them and leaves the pair nowhere |
| FdTables.DeactivateKeeps | Network/spread-4.1_OLD/daemon/events.c:448-478 | so does deactivating |
| FdTables.ActivateKeeps | Network/spread-4.1_OLD/daemon/events.c:480-510 | so does activating |
| FdTables.SetThresholdKeeps | Network/spread-4.1_OLD/daemon/events.c:512-542 | changing the threshold makes every mask bit right again |
| FdTables.RunsKeep | Network/spread-4.1_OLD/daemon/events.c:350-542 | in every run from the empty tables that stays within them: counts, uniqueness per priority, a bit only for an active entry at or above the threshold; and the converse in runs that revive nothing |
| FdTables.BehindIff | Network/spread-4.1_OLD/daemon/events.c:357-376 | a call writes behind the tables, while all entries have bits, if and only if it attaches at the priority one too high, or newly attaches, at or above the threshold, a descriptor or type one too high |
| FdTables.WithinStays | Network/spread-4.1_OLD/daemon/events.c:350-542 | a run whose attach calls name no such value stays within the tables |
| FdEntries.AttachLaw | Network/spread-4.1_OLD/daemon/events.c:350-412 | after attaching, the pair's one entry at that priority is active and has exactly the given handler, code and data, at its old place or last; every other entry of every priority, and every other mask bit, is as before; what it returns |
| FdEntries.DetachLaw | Network/spread-4.1_OLD/daemon/events.c:414-446 | after detaching, the pair is gone at every priority and its bit is clear; every other entry is there, the last one in the free place; fails if no priority had it |
| FdEntries.DeactivateLaw | Network/spread-4.1_OLD/daemon/events.c:448-478 | after deactivating, the pair is inactive at every priority that has it, with the handler it had, and its bit is clear; nothing else changes |
| FdEntries.ActivateLaw | Network/spread-4.1_OLD/daemon/events.c:480-510 | after activating, it is active at every one, and its bit is set if one of these is at or above the threshold; nothing else changes |
| FdEntries.ThresholdLaw | Network/spread-4.1_OLD/daemon/events.c:512-542 | a new threshold leaves every entry alone, and a bit is set if and only if an active entry at or above it wants it |
| EventLoop.EventTables.AttachFd | Network/spread-4.1_OLD/daemon/events.c:350-412 | the arrays and masks change as the specification says, with the same return code, whenever it does not write behind them |
| EventLoop.EventTables.DetachFd | Network/spread-4.1_OLD/daemon/events.c:414-446 | the same for detaching |
| EventLoop.EventTables.DeactivateFd | Network/spread-4.1_OLD/daemon/events.c:448-478 | the same for deactivating |
| EventLoop.EventTables.ActivateFd | Network/spread-4.1_OLD/daemon/events.c:480-510 | the same for activating |
| EventLoop.EventTables.SetActiveThreshold | Network/spread-4.1_OLD/daemon/events.c:512-542 | the same for the threshold: masks cleared and set anew |
| RoundRobin.BoundedWaiting | Network/spread-4.1_OLD/daemon/events.c:715-742 | a descriptor that is ready in every iteration is served within as many iterations as the low-priority table has entries |
| RoundRobin.FullTurn | Network/spread-4.1_OLD/daemon/events.c:715-742 | the bound is tight: with all ready, it is not served earlier than its distance |
| RoundRobin.ServedOrNearer | Network/spread-4.1_OLD/daemon/events.c:715-742 | each iteration serves it or brings the scan nearer to it |
| RoundRobin.NothingServedIff | Network/spread-4.1_OLD/daemon/events.c:713-742 | nothing is served, and the turn stays, if and only if the count is used up, the threshold is raised or nothing is ready |
| RoundRobin.ServeAllCounts | Network/spread-4.1_OLD/daemon/events.c:668-695 | a raised priority serves as many ready descriptors as there are and the count allows, and is treated if there was one |
| RoundRobin.CountIsLeft | Network/spread-4.1_OLD/daemon/events.c:668-695 | serving the higher priorities leaves the count of ready descriptors positive while a low one is ready |
| RoundRobin.LowScan.Serve | Network/spread-4.1_OLD/daemon/events.c:715-742 | the scan serves the first ready descriptor at or after Round_robin, and moves Round_robin behind it |
| Scatters.FragmentsRoundTrip | Network/spread-4.1_OLD/daemon/message.c:320-350 | the elements joined are header and buffer; all but the last are full and the last is not empty |
| Scatters.FragmentLocation | Network/spread-4.1_OLD/daemon/message.c:420-432 | the location of an offset points at the byte that stood there |
| Scatters.LocationIsUnique | Network/spread-4.1_OLD/daemon/message.c:420-432 | no other location has that offset |
| Scatters.TakenOverIsPrefix | Network/spread-4.1_OLD/daemon/message.c:264-293 | what a copy takes over of full elements is the fragmentation of the prefix |
| Scatters.Scatter.BufferToFragments | Network/spread-4.1_OLD/daemon/message.c:320-350 | the loop fills and adds elements so that they are the fragments of header and buffer |
| Scatters.Scatter.CalculateCurrentLocation | Network/spread-4.1_OLD/daemon/message.c:420-432 | computes the location of the offset, one behind the last byte included |
| Scatters.Scatter.DupAndReset | Network/spread-4.1_OLD/daemon/message.c:264-293 | the copy takes over the buffers that hold the message, the original gets new empty ones in their place and keeps the others |
| Scatters.Scatter.Flatten | Network/spread-4.1_OLD/daemon/groups.c:2099-2106 | copying the elements one after the other gives their concatenation |
| FifoQueue.RunsKeep | Common/includes/syncFifoQueue.h:53-220 | under every interleaving of the monitor sections from a new queue, resets included: what was pushed is what was popped followed by the contents, the size is the true size and at most the maximum, a waiting consumer means an empty queue; and a waiting producer a full one, unless a reset left it waiting and nothing notified since |
| FifoQueue.StepKeeps | Common/includes/syncFifoQueue.h:53-220 | each section keeps that; the clause about producers is lost by a reset that leaves one waiting, by nothing else, and comes back with the first section that notifies |
| FifoQueue.ResetKeepsIff | Common/includes/syncFifoQueue.h:62-69 | reset, which does not notify, keeps it if and only if no producer waits, or nothing can ever be pushed |
| FifoQueue.FirstInFirstOut | Common/includes/syncFifoQueue.h:118-138 | a pop takes the oldest element not yet taken |
| FifoQueue.PushLaw | Common/includes/syncFifoQueue.h:95-115 | push adds exactly its item behind the others unless the queue is full or killed, waits exactly if it is full, and wakes everybody exactly if it added |
| FifoQueue.PopLaw | Common/includes/syncFifoQueue.h:118-167 | pop and timed_pop take exactly the oldest item unless the queue is empty or killed, wait exactly if it is empty, and wake everybody exactly if they took one |
| FifoQueue.AsyncPopLaw | Common/includes/syncFifoQueue.h:169-220 | async_pop and try_pop take exactly the same and never wait |
| FifoQueue.KillLaw | Common/includes/syncFifoQueue.h:53-60 | the kill signal moves no item and wakes everybody |
| FifoQueue.SyncFifoQueue.Push | Common/includes/syncFifoQueue.h:95-115 | one section of push: waits, gives up when killed, or appends and notifies |
| FifoQueue.SyncFifoQueue.Pop | Common/includes/syncFifoQueue.h:118-167 | one section of pop or timed_pop |
| FifoQueue.SyncFifoQueue.AsyncPop | Common/includes/syncFifoQueue.h:199-220 | async_pop never waits |
| FifoQueue.SyncFifoQueue.Reset | Common/includes/syncFifoQueue.h:62-69 | contents, size and kill flag cleared, nobody notified |
| FifoQueue.SyncFifoQueue.IsFull | Common/includes/syncFifoQueue.h:86-92 | whether the size counter is the maximum, and in a state of the invariant whether the queue is full |
| Dispatcher.RunsKeep | Network/Netbroker/src/dispatcher.cpp:669-691 | the system of worker, queue and consumers keeps its invariant in every run |
| Dispatcher.DeliverDoesNotWait | Network/Netbroker/src/dispatcher.cpp:681-691 | the worker's push never waits |
| Dispatcher.ConsumersSeeArrivals | Network/Netbroker/src/dispatcher.cpp:669-691 | consumers take a prefix of the messages kept, which are a subsequence of the arrivals in order |
| Dispatcher.EarlyMessagesAreKept | Network/Netbroker/src/dispatcher.cpp:669-691 | in no run is a message dropped before as many were kept as the queue holds, whatever the consumers do |
| NoLockPool.Conserved | Common/includes/NoLockPool.h:30-112 | free, released and outstanding slots add up to the slots allocated |
| NoLockPool.Pool.constructor | Common/includes/NoLockPool.h:47-62 | the first block has a tenth of the maximum at least, and the wanted slots where the maximum allows; with a negative maximum there is none |
| NoLockPool.Pool.Grow | Common/includes/NoLockPool.h:30-45 | grows if and only if the size is below the maximum, never beyond it |
| NoLockPool.Pool.Get | Common/includes/NoLockPool.h:79-96 | gives none if and only if all slots of the maximum are outstanding; otherwise one that was not outstanding, the first free or else the first released |
| NoLockPool.Pool.Release | Common/includes/NoLockPool.h:98-104 | the slot goes to the end of the release queue, which has room |
| NoLockPool.Pool.Recycle | Common/includes/NoLockPool.h:106-112 | the slot goes to the end of the free list |
| IniRoundTrip.SaveThenLoad | Common/includes/SimpleIni.h:2362-2485 | loading what was saved into an empty store gives the same sections, keys and values in the same order, for all contents that INI text can express |
| IniRoundTrip.SavedReadsBack | Common/includes/SimpleIni.h:1497-1626 | the entries found in a saved text are those of the contents, in order |
| IniRoundTrip.KeySurvivesIff | Common/includes/SimpleIni.h:1563-1622 | a key and value written on a line are found again, with the parser behind the line, if and only if the value is good |
| IniRoundTrip.ValueSurvivesIff | Common/includes/SimpleIni.h:2460-2477 | which values are read back as written: on one line those without newlines, spaces at the ends or, with multi-line on, a leading <<<; in a block those without carriage returns and without a line that is the tag |
| IniRoundTrip.FoundKeysAreGood | Common/includes/SimpleIni.h:1563-1589 | no text makes the parser find a key that could not have been saved |
| IniLines.WhiteLaw | Common/includes/SimpleIni.h:1509-1515 | white space and empty lines are passed over |
| IniLines.CommentLaw | Common/includes/SimpleIni.h:1517-1522 | so is a line that starts with ; or # |
| IniLines.InvalidLaw | Common/includes/SimpleIni.h:1563-1580 | so is a line without = that is no header, and one that starts with = |
| IniLines.HeaderLaw | Common/includes/SimpleIni.h:1524-1560 | a header gives its section, the name without white space around it, whatever follows it on the line |
| IniLines.KeyLaw | Common/includes/SimpleIni.h:1563-1622 | a key is what stands before the first =, its value the rest of the line, both without blanks around them; it belongs to the section in hand |
| IniLines.BlockLaw | Common/includes/SimpleIni.h:1616-1620 | a value of <<< and a tag announces the block up to the line that is the tag |
| IniText.MultiLineRoundTrip | Common/includes/SimpleIni.h:1689-1809 | loading a block undoes writing it and ends behind the tag |
| IniText.MultiLineSurvivesIff | Common/includes/SimpleIni.h:2489-2514 | a block is read back as written if and only if it has no carriage return and no line equal to the tag |
| IniText.JoinSplits | Common/includes/SimpleIni.h:2489-2514 | splitting joined lines gives the lines |
| IniBlocks.LoadMultiLineText | Common/includes/SimpleIni.h:1689-1809 | loading in place: the value stands at its first line's place, NUL-terminated, with every newline of either kind a single one; what follows the block is untouched; false only for an empty block with an empty tag |
| IniBlocks.CompactLines | Common/includes/SimpleIni.h:1704-1786 | the write position never passes the read position, and what is written is the lines so far |
| IniReader.NextEntry | Common/includes/SimpleIni.h:1497-1626 | the pointer-advancing loop over the buffer finds what FindEntry specifies |
| IniReader.TakeValueAt | Common/includes/SimpleIni.h:1591-1622 | the value on the line, or the block that it announces |
| IniStore.IniFile.AddEntry | Common/includes/SimpleIni.h:1840-1941 | afterwards a look-up by any spelling of the section and the key finds the value: alone where a key has one value or the replacement is forced, behind the others where not; every other look-up finds what it found; names keep their spelling and places, new ones come last; and it reports an insertion if and only if it made the section, or got a key that it made or that takes several values |
| IniLookup.SameIff | Common/includes/SimpleIni.h:2625-2661 | two spellings are one name if and only if they are equal or, where case is ignored, differ only in the case of ASCII letters |
| IniLookup.AddEntryLaw | Common/includes/SimpleIni.h:1840-1941 | the same change of what is found, for the contents in load order |
| IniStore.IniFile.LoadData | Common/includes/SimpleIni.h:1376-1450 | every entry of the text up to its first NUL is added |
| IniStore.IniFile.Save | Common/includes/SimpleIni.h:2362-2485 | the text of the contents: sections and keys by load order, values in the order added |
| IniWritten.SavedIsLines | Common/includes/SimpleIni.h:2362-2485 | what is written, line by line, each with the system's newline: a section's header, a line for every value or the lines of its block, and two empty lines between sections |
| IniWritten.SavedLinesArePlain | Common/includes/SimpleIni.h:2362-2485 | of well-formed contents no line holds another newline |
| IniStore.OutputMultiLineText | Common/includes/SimpleIni.h:2489-2514 | every line with the newline of the system, the empty one behind a last newline too |
| IniStore.NeedsBlock | Common/includes/SimpleIni.h:1643-1677 | a value has a space at an end or a newline |
| IniOrder.StoreInSection | Common/includes/SimpleIni.h:1883-1941 | storing a value under a folded key changes the contents in load order as adding it does |
| IniOrder.RankedLast | Common/includes/SimpleIni.h:1870-1895 | what gets a load order above all others is listed last and moves nothing |
| IniOrder.SortByOrder | Common/includes/SimpleIni.h:2372-2440 | listing by load order |

## Left out

- Sockets, select, signals, files, logging, access control and the code that only moves messages between layers: I/O and plumbing.
- Configuration reload, `Conf_config_copy`, endian conversion, group masks, memory pools and reference counts.
- `G_analize_groups` and the unicast of notifications: which sessions get a message; a notification is a value for all local members.
- The private-name lookup `G_private_to_names`: a map from private names to daemons stands for it.
- Skip lists: ordered maps and sets stand for them; the two orders and the walk are modelled.
- Groups as objects: the table maps names to values, and the handlers replace a group's value; aliasing between the table and its iterators is not captured. The synced set is an array in `SyncedSets` and a sequence field in `GroupsLayer`; mailboxes are an array in `Mailboxes` and a sequence in a group.
- Overflow of counters and of the comparators' subtractions; processor ids, times in membership ids and group indices are 32-bit, an index wraps around.
- VsTell.BuildFor: asks for a buffer with room for the message (`RoomOfGroup`); the source does not check the length of its own. What is read of it is stated for buffers of less than four gigabytes, whose offsets fit their fields.
- The client library's readers over scatters, the changed member in a message without sets, and message types: only its readers of the id and the sets are modelled; a message that ends before its sets do is answered as such, where the source reads on.
- Joins of one daemon that are checked against the member limit but not yet delivered: `LimitIsLetIn` is about joins one after the other.
- Message bodies whose counts point beyond their end: the source reads on.
- A table that no sequence of buffers can hold: the source does not return (`BuildTerminates`); `Sendable` is then false and the build function gives no buffers.
- Queues of held-back messages and the session threshold: one flag says whether they are in force.
- Time-event execution and the clock: only the timer list and the comparison of times.
- What calls do after one that wrote behind the descriptor tables; `EventLoop`'s methods ask that theirs does not.
- Low-priority scan with a table that changes between iterations, or a pair registered at two priorities: the fairness bound is for a stable table.
- `Message_element_len_fixup`, `Message_get_groups_array`, locations while sending.
- `try_pop` differs from `async_pop` only when the lock is taken; it is a step that may do nothing.
- Dispatcher: connecting, stopping, registering groups, two workers after a timed-out stop; one group's queue and one worker are modelled.
- The pool's release queue is a bounded first-in first-out queue; its own implementation is not part of this model. A slot is released or recycled by its owner once.
- SimpleIni comments are passed over and not kept; converters, the UTF-8 signature, deletion and numeric getters are not modelled. The multi-key setting does not change during a store's life. If a section name is not closed and a comment with two-character newlines follows before the next key, the name that the source ends up with also depends on the compaction of that comment.
- IniStore.IniFile.LoadData: strings are copied when found. A store's first load keeps pointers into the buffer instead; this shows only for a block without lines, whose value then ends where the parser writes its next NUL.
- IniReader.NextEntry: a section name or key is read out of the buffer before its NUL is written.
