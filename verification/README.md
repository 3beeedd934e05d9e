# mcp-dispatch: verified protocols over a shared store

mcp-dispatch lets agents on one or more hosts exchange messages through directories: every
agent has an inbox of message files, a presence lock says who is live, a git repository of
append-only lanes carries messages between hosts, and a supervisor starts agents that have
mail and no live session. The files here model those protocols and prove what they keep.

Files are map entries or list entries. An atomic rename, an exclusive create, a file lock, one
atomic write and one whole tool call (where the text says so) are single steps. Git is modelled
by what the lanes rely on: a lane of any clone may grow to a longer prefix of its author's lane,
or stay; a publish may fail before or after its record is written, and a push or a fetch may
raise. Clocks, random ids, JSON decoding, child processes and presence are parameters.

| module | what it covers |
|---|---|
| `Order`, `Ids`, `Messages` | stable sorting, filtering, string order; session ids and nicks; the message record, expiry, tombstones |
| `Lanes`, `Transport` | lanes, cursors, `publish`, `drain`, `collect` |
| `Replication`, `Bridge`, `Pacing` | the two passes of the git replicator, its ledger, its fetch pacing |
| `Bus`, `LoopFreedom` | any number of hosts over one bus: what every run keeps, and when an id gets a second record |
| `Delivery`, `DirectMail`, `ChannelPosts` | delivery end to end over any run and over two ticks, at most once per inbox; posts to a channel |
| `Supervision`, `SupervisorRuns`, `SupervisorJournal`, `SupervisorProgress` | the supervisor's state machine, its guarantees over whole runs, its decisions told from what happened before, its progress |
| `Inheritance`, `Sweeps`, `Adoption`, `Trigger` | racing sweepers over dead inboxes, and what they miss; counted mail against adopted mail |
| `Mailbox`, `MailboxRuns`, `Receipts` | the life of a copy, what receipts say, the capped receipt delta |
| `Tasks`, `Digest` | claiming by exclusive create; the "away" watermark and its event list |
| `Transcript`, `SortKeys`, `KeyChange` | the viewer's capped transcript, its two sort keys, and what a changed key costs |
| `Resolvers`, `Framing` | the Go and Python resolvers, the chunked line reader |

Code that changes things step by step is a class or a method with a loop, tied by its
postcondition to a function of the old state; the theorems are about those functions.

## Where the code does less than one might expect

Each of these is a lemma that names the input, and where there is one, the exact condition.

- A message can get a second lane record. A pass writes a record for an id exactly when the id is
  not in the ledger and the first message scanned with it is for the bus
  (`Replication.CleanPassPublishesIff`, `Replication.PassAddsIff`), so over any run there is one
  record per id exactly when no pass writes an id that some lane already carries
  (`LoopFreedom.OneRecordIff`, `LoopFreedom.CleanRepublishesIff`). Two kinds of run do: a `must_read`
  message is published, a later pass prunes its ledger entry, and the next publishes it again
  (`LoopFreedom.ForgottenIsRepublished`); and a commit fails after its record was written, so that
  the id is not ledgered (`LoopFreedom.FailedCommitIsRepublished`).
- An inbound pass that raises or dies part-way has already saved a cursor past its whole batch. It
  delivers an unread direct message exactly when its place is in front of where the pass stopped
  (`Delivery.CutDeliversIff`), and no later pass delivers the others (`Delivery.CutLosesForGood`).
- A channel post from one host reaches a subscriber on another exactly when somebody else on the
  sender's host follows the channel as well: without such a listener no file of the post is ever
  written, so no bridge can carry it (`ChannelPosts.PostCrossesIff`).
- The sender's own inbound pass adds a copy of its message exactly when the original has left
  the inbox its `to` names (`Delivery.OwnEchoIff`).
- A cooldown is kept over every run exactly when it is no longer than the one-hour rate window,
  because pruning forgets the last start (`SupervisorRuns.CooldownKeptIff`).
- With `inherit_inbox` off, the docstring of `inherit_sources` expects a new session to be handed
  the nick's own inbox; a session named `<nick>-<pid>` is not, and the trigger never clears
  (`Trigger.NotClearedWithoutInheritance`). With it on, mail in a source listed as remote stays
  (`Trigger.StartClearsTriggerIff`).
- Every session start reaps empty inbox directories, live sessions' ones too, and no sweep makes its
  own again. From then on each rename of that session's sweeps fails, until somebody writes to it
  (`Sweeps.StrandedUntilSent`): mail waits beside a live heir (`Adoption.MailStranded`). If nobody
  else touches the file, a listed message still waits at the end of a sweep exactly when its rename
  was refused for want of the heir's directory (`Sweeps.SweepMissesIff`, `Sweeps.RefusedIff`).
- A file an heir acks can come back, pending, exactly when a sweep of its own is between the rename
  and the rewrite of that file (`Inheritance.DeletionUndoneIff`, `Inheritance.GapResurrects`); runs
  reach such a state (`Adoption.GapReached`).
- A nick that itself ends in a dash and digits shares its inbox name with a session of a shorter
  nick (`Inheritance.NestedNickLeaks`, `Inheritance.SourceKeepsNickIff`).
- A claim that read a work item before it was finished can set it back to claimed
  (`Tasks.DoneUndoneIff`).
- Registering as a step of its own after taking the presence lock can move the watermark into the
  present spell (`Digest.RegisterSafeIff`, `Digest.SplitClaimUnderReports`); and stamps have whole
  seconds, so an event in the second of a clean exit is not listed (`Digest.SameSecondLeftOut`).
- The viewer's sort key comes from a file name in milliseconds while an inbox copy exists and from
  a timestamp in whole seconds afterwards. It falls with the ack of the last copy unless both moments
  are the first millisecond of one second (`SortKeys.KeysAgreeIff`, `KeyChange.KeyAfterAckIff`). The
  capped transcript then still holds the newest part exactly when nothing was evicted, the message was
  not shown, or its new key is not before the newest evicted one
  (`KeyChange.KeyChangeKeepsNewestIff`; for whole snapshots `KeyChange.SnapshotKeepsNewestIff`);
  otherwise, for every cap, it lacks a newer message than one it shows
  (`KeyChange.KeyChangeLosesNewest`). And without a new id it is not sorted again
  (`KeyChange.InPlaceOrderIff`).
- Receipts settle exactly when no (id, recipient) key is in two states (`Receipts.SettlesIff`), and a
  capped peek makes no headway exactly when every receipt it shows shares its key with one it holds
  back (`Receipts.NoHeadwayIff`).
- A line over the limit is never delivered, but whether the lines behind it are depends on the cuts:
  a connection has one effect however it is cut exactly when no line that the parser takes stands
  behind a line over the limit (`Framing.CutsAgreeIff`; for the lines passed on,
  `Framing.CutsPassAllIff`). The reader always gets past a line within the limit, never past one a
  full read over it (`Framing.LineFateIff`).

## Model

| member | source | states |
|---|---|---|
| Ids.SessionIffDurable | dispatch_fs.py:177-184 | a directory matches the sibling pattern `^base-\d+$` exactly when its durable nick is `base` and it is not `base`: two spellings of "session of" agree |
| Ids.DurableNickValid | dispatch_fs.py:32-35 | stripping the process id from a valid id leaves a valid id |
| Lanes.NumberedAppend | git_transport.py:240-249 | appending a record numbered by the non-blank lines before it keeps every lane numbered 0,1,2,… |
| Lanes.BatchElements | git_transport.py:426-448 | a drain hands over every unread well-formed foreign record once, sorted by (ts, from, seq), and nothing else |
| Lanes.BatchInReadingOrder | git_transport.py:426-448 | its stamps never fall, equal stamps stand by author, and an author's records of one stamp by number |
| Lanes.BatchKeepsLaneOrder | git_transport.py:426-448 | a batch keeps a lane's own order if and only if that lane's ts does not fall among the records read |
| Lanes.DrainsReadTheWholeLog | git_transport.py:379-400 | over any interleaving of appends, drains and cursor reloads the batches together hold each foreign record below the cursor exactly once |
| Lanes.DrainReachesTheEnd | git_transport.py:426-448 | after a drain every lane is consumed to its end |
| Transport.GitBus.Publish | git_transport.py:261-324 | raises on a bad target or key and on a failure before the append, and then writes nothing; a failing `add` or `commit` raises with the record written; otherwise, and then, one record is appended to the author's lane, numbered by it |
| Transport.GitBus.ReadNewLines | git_transport.py:379-400 | returns the well-formed records past the cursor; the cursor moves past every line, malformed ones too, and never back |
| Transport.GitBus.Drain | git_transport.py:426-448 | the batch of `Lanes.Batch`, with the cursor advanced and already saved |
| Transport.GitBus.Collect | git_transport.py:457-484 | per (author, key) a record of the asked kind; no other such record of that author and key has a higher seq, or the same seq and a later ts; and only such keys |
| Transport.SnapshotIgnoresListing | git_transport.py:457-484 | any two such snapshots have the same keys and the same (seq, ts) per key, whatever the lane order |
| Transport.LastAppendedWins | git_transport.py:457-484 | when an author's records for a key are all in one lane, the snapshot holds the last appended |
| Replication.PublishAllGrows | git_bridge.py:217-234 | a pass only extends lanes, forgets no ledger entry and keeps lanes numbered |
| Replication.PublishAllLedgers | git_bridge.py:217-234 | without a raise every mirrored message is in the ledger afterwards, published or not |
| Replication.PublishAllStamps | git_bridge.py:217-234 | a pass enters what it handles with its own time and leaves the time of every earlier entry |
| Replication.PrunedKeepsYoung | dispatch_fs.py:504-530 | pruning keeps exactly the entries at most fourteen days old, with their times |
| Replication.LocalMessagesElements | git_bridge.py:186-215 | the scan yields exactly the messages of the listed inboxes that crossed no bridge and are no tombstone |
| Replication.PassAddsIff | git_bridge.py:217-234 | a pass adds a record for an id if and only if it gets to the first message scanned with it, unledgered and for the bus, and its write does not fail before the append; and then exactly one |
| Replication.AddedRecord | git_bridge.py:236-258 | whatever a pass adds, raise or not, is the record of a scanned message for the bus: whole body, sender, `to` or channel, thread, ttl, stamp, number |
| Replication.CleanPassPublishesIff | git_bridge.py:217-258 | in a pass without a raise that is: the id is not ledgered and the first message scanned with it has a valid sender and is a post to a valid channel, or for one valid agent that is not live here or is mirrored all the same |
| Bridge.GitBridge.constructor | git_bridge.py:58-106 | with no ledger on disk exactly the ids of the mirrored backlog are recorded, stamped now, and saved; otherwise exactly the saved entries at most fourteen days old |
| Bridge.GitBridge.SeedLedgerFromBacklog | git_bridge.py:417-434 | adds exactly the non-empty ids of locally sent, unexpired messages, and saves even if there are none |
| Bridge.GitBridge.Publish | git_bridge.py:236-258 | what is not for the bus changes nothing; a key with a line break raises and writes nothing; else one record in the sender's lane, also when the commit then fails and raises |
| Bridge.GitBridge.Outbound | git_bridge.py:217-234 | the pass of `Replication.PublishAll`; only if something was published and nothing raised, and before a push that raises, the ledger loses exactly its entries older than fourteen days and is saved |
| Bridge.GitBridge.Inbound | git_bridge.py:260-284 | the cursor is past the whole batch in any case; the recipients of its records are served in order, with the cached id sets equal to reading the inbox anew, up to the first write that fails, and then it raises |
| Bridge.FinishedDeliversAll | git_bridge.py:260-284 | a pass in which no write failed has handed every record of the batch to its recipients |
| Bridge.GitBridge.Tick | git_bridge.py:110-143 | outbound on every tick; inbound exactly when a fetch is due; the pace as `Pacing.AfterTick`; a raise in publish, push or fetch leaves inbound untouched, one in a write of the inbound pass leaves what `Inbound` does, and both leave the pace as it was by then |
| Pacing.PaceBound | git_bridge.py:132-143 | over any run the interval is never below the poll interval or the ceiling |
| Pacing.SilentFetchBound | git_bridge.py:132-143 | after any run a silent stretch of length T makes at most max(1, L) + floor(T/max) fetches, L doublings reaching the ceiling |
| Pacing.SilentFetchIff | git_bridge.py:132-143 | on a silent bus the fetch after `n` comes with the first tick that lies the poll interval doubled `n` times after the last one, or the ceiling after it if that is less |
| Pacing.FetchGapBound | git_bridge.py:110-143 | consecutive fetches are at most max + d apart when ticks are at most d apart, whatever the traffic |
| Pacing.TrafficSnapsBack | git_bridge.py:110-143 | a tick that published or received is followed by a tick that fetches |
| Bus.StepKeepsSound | git_bridge.py:186-304 | sends, arrivals, local handling, both passes whether they get through or stop part-way, fetches and restarts keep lanes, cursors and files consistent |
| LoopFreedom.OutboundOneRecordIff | git_bridge.py:217-234 | one record per id holds after a pass if and only if it held before and the pass writes no id that some lane carries |
| LoopFreedom.OneRecordIff | git_bridge.py:186-256 | the same over every run, with raises, failing commits, pruning and restarts in it |
| LoopFreedom.CleanRepublishesIff | git_bridge.py:217-258 | a pass that gets through writes such an id if and only if it scans a copy whose id is carried, not in the ledger and for the bus |
| LoopFreedom.CarefulRemembers | dispatch_fs.py:519-530 | passes that get through, and pruning that drops no published id whose copy is still there, keep every published id remembered in memory and on disk |
| LoopFreedom.TimelyIsCareful | dispatch_fs.py:504-530 | a step at which every published id whose copy is still there has an entry at most fourteen days old prunes none of them |
| LoopFreedom.TimelyRunsKeepOneRecord | git_bridge.py:217-234 | from an empty bus, while passes get through and that holds at every save and restart, every id has one record |
| LoopFreedom.NothingOldLeft | dispatch_fs.py:504-530 | after a save or a restart exactly the entries at most fourteen days old are left, with their times |
| LoopFreedom.LoopFree | git_bridge.py:186-256 | after any run each lane record is that of a message for the bus, without a bridge tag and addressed as the message is, and every clone's lane is a prefix of its author's; no id has two lane records if and only if no pass republished, and careful runs never do |
| LoopFreedom.ForgottenIsRepublished | dispatch_fs.py:504-530 | for any two direct messages there is a run of sends and unfailing passes in which pruning forgets the first and it gets a second record |
| LoopFreedom.FailedCommitIsRepublished | git_transport.py:302-321 | for any direct message a failing commit and one more pass give it a second record |
| Delivery.InboundDelivers | git_bridge.py:260-304 | an inbound pass over an unread direct message adds one pending copy to the inbox it names if that has none, and nothing anywhere else |
| Delivery.AtMostOnce | git_transport.py:426-448 | over any run that republishes nothing a host's inbound passes add at most one copy of an id to an inbox, and none once it has read past the record, even after every copy was acked |
| Delivery.CutDeliversIff | git_bridge.py:260-284 | an inbound pass that stops at a place delivers an unread direct message if and only if the message's place is in front of it, and then as a whole pass does |
| Delivery.CutLosesForGood | git_transport.py:426-448 | one that it does not deliver is added by no later pass of any run that republishes nothing |
| Delivery.EndToEnd | git_bridge.py:110-130 | sender's pass, then any run, then the receiver's first pass to read past the old end of the lane: exactly one copy in the named inbox there, equal but for state, read time and tag, and none elsewhere |
| Delivery.OwnEchoIff | git_bridge.py:260-284 | the sender's own pass adds no copy if and only if the original still lies in the inbox its `to` names |
| DirectMail.StepKeepsLedgers | git_bridge.py:217-234 | every id in any ledger belongs to a message that was sent |
| DirectMail.TwoTicksDeliver | git_bridge.py:110-130 | a whole tick at the sender's host and then a whole tick at the receiver's deliver the message exactly once |
| DirectMail.TwoTicksPossible | git_bridge.py:110-130 | from a bus that remembers its published ids, a careful outbound pass can always be continued to two such ticks |
| DirectMail.DirectMailArrives | dispatch_fs.py:392-429 | from any reachable state, a message sent to an agent with no live session at home, a pass there, any run, and a first reading pass elsewhere: exactly once in the resolved inbox of that host |
| ChannelPosts.InboundPosts | git_bridge.py:260-304 | an inbound pass over an unread channel post adds one pending copy to the inbox of each valid subscriber but the author that has none, and nothing anywhere else |
| ChannelPosts.EndToEndPost | git_bridge.py:236-304 | sender's pass, then any run, then another host's first pass to read past the old end of the post's lane: exactly one copy with each subscriber but the author there, equal but for state, read time and tag, and none elsewhere |
| ChannelPosts.StepKeepsNowhere | git_bridge.py:186-304 | a message in no inbox and on no lane stays so in every step |
| ChannelPosts.PostSent | dispatch_fs.py:415-420 | sending a post leaves one for the next pass if somebody else here follows the channel, and otherwise nothing anywhere |
| ChannelPosts.PostCrossesIff | git_bridge.py:186-304 | from any reachable state: a subscriber elsewhere gets its one copy if and only if the post has such a listener on the sender's host; otherwise nobody anywhere gets it |
| Supervision.NickState.ResolveInFlight | supervisor.py:623-643 | settles a start in flight as `Resolved`, whose meaning over runs `SupervisorJournal.GraceIff` and `SupervisorJournal.ParkedIff` give |
| Supervision.Supervisor.TickNick | supervisor.py:647-684 | one nick's turn as `StepNick`, with the verdict it reports; `SupervisorJournal.SpawnedIff` says over runs when it starts the nick |
| Supervision.Supervisor.Tick | supervisor.py:647-684 | the pass is the turns of the nicks in order, each seeing the states the earlier ones left |
| SupervisorRuns.WorldFollowsSweep | supervisor.py:647-684 | the runs reasoned about below have the states of the supervisor's passes |
| SupervisorRuns.StepKeepsRate | supervisor.py:441-448 | the pruned start list stays the recent end of the full spawn history, which stays spaced |
| SupervisorRuns.SpawnRateBound | supervisor.py:495-504 | in every run with a forward clock a half-open hour holds at most `max_starts_per_hour` spawns of a nick, and spawns are min(cooldown, 3600) apart |
| SupervisorRuns.CooldownKeptIff | supervisor.py:495-497 | in every run of a fresh supervisor starts of a nick are a cooldown apart if and only if the cooldown is no longer than the rate window |
| SupervisorRuns.StepKeepsConcurrency | supervisor.py:666-682 | one nick's turn keeps the number of starts in flight within `max_concurrent_starts` |
| SupervisorRuns.CapAndBreakerHold | supervisor.py:486-507 | at any point inside any tick of any run the cap holds and no parked nick is in flight |
| SupervisorRuns.BreakerOverRun | supervisor.py:599-621 | parked is absorbing and never spawned again; a nick never seen live is spawned at most `max_failures` times |
| SupervisorRuns.NeverLiveBound | supervisor.py:599-621 | the same from a fresh supervisor |
| SupervisorRuns.HealthyNeverParked | supervisor.py:594-643 | a nick whose launches work and which is live within `start_timeout` of each start, its child not exiting before, is never parked, however often it starts and however many passes a start takes |
| SupervisorRuns.NothingOverdue | supervisor.py:623-643 | after a tick of any run no start older than `start_timeout` is still in flight |
| SupervisorJournal.SpawnedIff | supervisor.py:485-507 | at any nick's turn in any run of a fresh supervisor it is spawned if and only if it is not live and not on its way, has mail, fewer than `max_failures` attempts in a row failed, the last spawn lies min(cooldown, 3600) back, fewer than `max_starts_per_hour` spawns lie within the hour, fewer than `max_concurrent_starts` others are in flight, the launch works, and it is no dry run |
| SupervisorJournal.VerdictTells | supervisor.py:485-507 | and the verdict reported is the first of these rules that stands in the way |
| SupervisorJournal.ParkedIff | supervisor.py:599-621 | at any point of any run the failure count is the number of attempts in a row that failed since the nick last came up, and it is parked if and only if that has reached `max_failures` |
| SupervisorJournal.GraceIff | supervisor.py:623-643 | a start in flight is still in flight after its nick's turn, nothing counted against it, if and only if the nick is not live, the child has not exited and the spawn lies at most `start_timeout` back |
| SupervisorProgress.StartsEachRound | supervisor.py:647-684 | over any run a nick with mail that is never live, whose launches work and whom the cap does not hold back, is spawned at least once in every max(min(cooldown, 3600), start_timeout) seconds until it is parked, 3600 at least only where `max_failures` is above `max_starts_per_hour` |
| SupervisorProgress.DeadNickIsParked | supervisor.py:599-621 | so after `max_failures` + 1 such rounds it is parked, having been spawned exactly `max_failures` times |
| SupervisorProgress.RoomForBusy | supervisor.py:666-682 | with fewer other nicks that ever have mail than the cap, the cap never holds the nick back |
| SupervisorProgress.RoomForAll | supervisor.py:666-682 | nor does a cap no smaller than the fleet |
| Inheritance.StepKeeps | server.py:690-811 | every interleaved step of sends, session starts and exits, reaps of empty directories, sweeps and own-file handling keeps files, trails and sweeps consistent |
| Inheritance.MailConserved | server.py:791-811 | after any run every file ever written is in exactly one inbox, the last of its trail, unless its owner removed it, and holds what was sent |
| Inheritance.AdoptedOnce | server.py:791-811 | no inbox occurs twice in a file's trail: adopted at most once out of and into each |
| Inheritance.RaceWonOnce | server.py:801-805 | of two sweepers holding the same file the second rename only moves on, and a first that is refused moves nothing |
| Adoption.AdoptionHappens | server.py:717-811 | for every session, source and message there is a run that ends with the message, tagged with the inbox it came from, in the session's inbox alone |
| Inheritance.SourceKeepsNickIff | server.py:751-770 | an adoption stays with the nick if and only if it does not take a bare nick inbox whose name itself ends in a process id |
| Inheritance.NickKept | server.py:751-770 | with plain nicks a message never leaves the inboxes of the nick it was first written for |
| Inheritance.NestedNickLeaks | server.py:751-770 | `web-2-7` adopts from `web-2`, a session name of `web` |
| Inheritance.DeletionUndoneIff | server.py:801-809 | some run after an heir's deletion of a file ends with a file of that name if and only if a sweep is between rename and rewrite of it |
| Inheritance.GapResurrects | server.py:801-809 | otherwise the rewrite brings the deleted message back as pending |
| Sweeps.SweepComplete | server.py:791-811 | over any run, when a sweep is through its names, a message it listed waits in the donor's inbox only if its rename was refused for want of the heir's directory |
| Sweeps.RefusedIff | server.py:800-805 | a name becomes so refused if and only if its rename finds the file in place and the heir's directory gone |
| Sweeps.SweepMissesIff | server.py:690-811 | from listing to end, if nobody else touches the file, a listed message still waits if and only if its last rename was refused |
| Sweeps.GuardedMailStays | server.py:751-770 | over any run in which an inbox is a live session's or listed as remote throughout, and no sweep of it was under way, its files leave it only if its owner removes them |
| Sweeps.NickInboxStays | server.py:690-714 | over any run the inbox directory of a registered nick is never reaped |
| Sweeps.StrandedUntilSent | server.py:690-714 | over any run without a send to it, a live session whose directory was reaped adopts nothing |
| Adoption.MailStranded | server.py:1544-1552 | for every session, source and message there is a run in which another start reaps the session's directory and its sweep ends with the message waiting |
| Adoption.GapReached | server.py:801-809 | from every empty world some run reaches a state where deleting the adopted file is undone |
| Trigger.Relay.InheritSources | supervisor.py:343-376 | the loop selects exactly the inboxes of the source rule, or with inheritance off the nick's own |
| Trigger.Relay.CountWaiting | supervisor.py:379-387 | the sum of pending, unexpired messages over those inboxes |
| Trigger.Relay.InheritOrphanInbox | server.py:717-811 | moves the pending messages of all donors, tagged, if the heir's directory is there, and nothing if not; returns by how many the heir's inbox grew |
| Trigger.SourcesAgree | supervisor.py:343-376 | with the session up, its donors are exactly the supervisor's sources that are not blocked |
| Trigger.RemainingMail | supervisor.py:379-387 | what a sweep leaves of its trigger is exactly the mail in blocked inboxes, or everything with inheritance off or the session's directory gone |
| Trigger.StartClearsTriggerIff | server.py:751-811 | for a nick with no live session the count is 0 afterwards if and only if no source listed as remote holds waiting mail |
| Trigger.StartAdoptsCounted | server.py:791-811 | every message counted in a source not listed as remote is in the new session's inbox afterwards, tagged with that source |
| Trigger.NotClearedWithoutInheritance | supervisor.py:351-362 | with inheritance off the count stays the nick's own waiting mail |
| Mailbox.Mail.CleanupExpired | server.py:840-882 | each file becomes what `Retire` leaves of it, in order, and the count is the messages whose time ran out |
| Mailbox.Mail.Peek | server.py:1917-1927 | returns exactly what the query selects after cleanup, and all of it is read afterwards |
| Mailbox.Mail.WithPending | server.py:1319-1330 | new mail riding along is what a plain peek would show, and is read afterwards |
| Mailbox.Mail.Ack | server.py:1957-1985 | the first file of each id is gone, the count is how many were, then new mail rides along |
| Mailbox.AckRemoves | server.py:1957-1985 | of the files with one id as many go, from the front, as the list names it, and the rest stay as they were |
| Mailbox.MarkShown | server.py:914-924 | marking the selected files one after the other equals marking, in one pass, whatever the query selects |
| MailboxRuns.PeekShowsWaiting | dispatch_fs.py:102-131 | a plain peek shows exactly the mail `iter_pending` counts, in order |
| MailboxRuns.QueryShowsIff | server.py:885-911 | a query shows the messages that never expire or whose time to live is not over, of the asked thread, with the asked ids or else pending, or read too where asked for; nothing else |
| MailboxRuns.NothingStaleShown | server.py:885-911 | no query returns an expired message or a tombstone |
| MailboxRuns.ViewMarks | server.py:914-924 | a shown pending copy is read from then on, stamped with the call's time; every other copy cleanup leaves stays as it is |
| MailboxRuns.CleanedAt | server.py:826-882 | a message in time stays as it is; a pending one that ran out becomes a tombstone stamped with the time, holding the first 120 characters |
| MailboxRuns.StepKeeps | server.py:826-924 | deliveries, peeks, piggybacks and acks keep: a copy is `read` exactly when some call returned it |
| MailboxRuns.LossHasCause | server.py:840-882 | a copy that disappears in a step was acked, ran out after being returned, or was a tombstone more than seven days old; must-read only by ack |
| MailboxRuns.ReceiptsTruthful | server.py:826-924 | over all runs: `expired` only if never returned and never for must-read, content as sent, and every loss explained by a step |
| Receipts.Session.NewReceipts | server.py:1144-1164 | lists the changed receipts newest first up to the cap, returns how many were held, and remembers accordingly |
| Receipts.Session.ReceiptFields | server.py:1857-1872 | listed + older + unchanged is the total, unchanged counts the receipts whose recorded state is current, and of the others ten are listed, or all if fewer |
| Receipts.NextReportedAt | server.py:1144-1164 | a held receipt keeps its old entry, any other has its current state, an absent one is forgotten |
| Receipts.ReportedIsLastListed | server.py:1128-1164 | over any run of peeks the memory is, for each continuously present key, the state it was last listed with |
| Receipts.FreshNext | server.py:1144-1164 | while receipts stay as they are and no key is in two states, the next fresh list is what was fresh under a held key |
| Receipts.HeldIsFreshIff | server.py:1144-1164 | it is exactly what was held back if and only if no shown receipt shares its key with a held one |
| Receipts.NoHeadwayIff | server.py:1144-1164 | it is all that was fresh before if and only if every shown receipt shares its key with a held one |
| Receipts.DeltasCatchUp | server.py:1144-1164 | if no cap falls between receipts of one key, n peeks then list exactly as many of the fresh receipts as fit in n caps, newest first |
| Receipts.EachListedOnce | server.py:1144-1164 | and enough peeks to hold them list every fresh receipt exactly once, newest first |
| Receipts.DistinctIsClean | server.py:1133-1139 | with distinct (id, recipient) keys both hold for every cap |
| Receipts.SettlesIff | server.py:1133-1159 | listing everything leaves nothing fresh if and only if no key is in two states; otherwise some receipt is fresh whatever is remembered |
| Tasks.Task.ClaimTask | server.py:1068-1094 | an uninterrupted claim is `ClaimCall` |
| Tasks.Task.CompleteTask | server.py:1097-1107 | an uninterrupted completion is `CompleteCall` |
| Tasks.CallIsItsSteps | server.py:1068-1107 | a call whose file operations nobody interrupts has the effect and the outcome of the whole call |
| Tasks.ClaimExclusive | server.py:1068-1094 | in every interleaving of claims and completions at most one agent id gets a normal return from a claim |
| Tasks.WholeCallsKeepOwner | server.py:1068-1107 | with whole calls atomic, done is absorbing and `claimed_by` is written once |
| Tasks.OnlyOwnerGetsThrough | server.py:1068-1107 | whatever calls come, a completion of an owned item gets through if and only if it is the owner's, a claim if it is the owner's and the item is not done; a refused call changes nothing |
| Tasks.FinisherIsOwner | server.py:1097-1107 | in every interleaving a completion past its read was refused or holds the item, done, as its owner |
| Tasks.DoneUndoneIff | server.py:1068-1094 | a reachable finished item can come undone if and only if some claim read it before and can still win, or has won, the marker |
| Tasks.DoneComesUndone | server.py:1068-1107 | such runs exist |
| Digest.Registry.ClaimId | server.py:411-455 | refused for a held id; else lock and registration are the `Claim` step of the runs below |
| Digest.Registry.ReleaseId | server.py:458-475 | the stamp and then the dropped lock are the `Release` step |
| Digest.Registry.Subscribed | server.py:577-600 | a change of channels stamps the record: the `Subscribe` step |
| Digest.Registry.RegisterAgent | server.py:528-574 | the watermark moves only when no other session of the nick is live |
| Digest.WatermarkNeverLate | server.py:458-466 | over every run, a live nick's window starts no later than the moment it was last down, and at the release stamp after a clean exit |
| Digest.SiblingsDoNotAdvance | server.py:556-566 | sessions coming and going while the nick stays live never move its window |
| Digest.WindowWithinRecord | server.py:528-574 | however claims are interleaved, a registered nick's window starts at a stamp between its first registration and when it was last seen |
| Digest.RegisterSafeIff | server.py:528-574 | registering alone is safe if and only if no stamp of the present spell is later than the last time down |
| Digest.SplitClaimUnderReports | server.py:380-408 | a run in which it is not |
| Digest.CollectTasks | digest.py:138-196 | the loop yields the sorted list of `EventsOf` and the list of `OpenFor`, whose elements the next rows give |
| Digest.EventsElements | digest.py:93-98 | an event is listed if and only if it reports the `created_at`, `claimed_at` or `done_at` of a record, with who created or claimed it, and that stamp lies in (since, now] |
| Digest.EventsDistinct | digest.py:174-179 | and once, where no two records share an id |
| Digest.MineIff | digest.py:160-172 | an item is the nick's if and only if it is addressed to the nick, to one of its sessions, or to a channel it is in |
| Digest.OpenElements | digest.py:182-193 | the open list holds exactly the open items addressed to the nick or to a room it stands in |
| Digest.NothingMissed | digest.py:220-269 | after any run the creation, the claim and the completion of each item, with its stamp and its agent, is listed wherever the stamp lies after the second in which the nick last went down, up to now, oldest first |
| Digest.NothingInvented | digest.py:220-269 | each entry is one of these three of some record, and after a clean exit later than its second |
| Digest.SameSecondLeftOut | digest.py:93-98 | after a clean exit an event is in the window if and only if it does not fall in the second of the exit |
| Transcript.Model.Accumulate | tui/model.go:183-210 | for any transcript with its index and any snapshot: known ids in place, and with a new id one stable sort, the cap and a fresh index |
| Transcript.ViewedIsCap | tui/model.go:183-210 | while ids keep their keys, the transcript after any snapshots is the cap of a history that forgets nothing |
| Transcript.CapThenRecordAll | tui/model.go:183-210 | recording into the capped list and capping again equals capping the full history |
| Transcript.SortIsRecordAll | tui/model.go:197-202 | appending a batch and sorting once equals inserting its messages one by one |
| Transcript.HistoryHoldsLatest | tui/model.go:183-192 | the unbounded history holds exactly the latest content of every id ever seen, in order |
| Transcript.TranscriptIsNewest | tui/model.go:183-210 | the transcript holds latest contents; it is in (SortMS, ID) order; what it leaves out has no higher key than any of it, and then it is full |
| KeyChange.SnapshotKeepsNewestIff | tui/model.go:183-210 | after a snapshot with any keys the viewer holds the newest part of all it has seen if and only if for each forgotten message it holds a full cap of messages not before it |
| KeyChange.KeyChangeKeepsNewestIff | tui/model.go:186-205 | for one message: if and only if nothing was evicted, it was not shown, or its key is not before the newest evicted one |
| KeyChange.KeyChangeLosesNewest | tui/model.go:186-205 | otherwise, for every cap, the shown message stays and the newer evicted one does not return |
| KeyChange.InPlaceOrderIff | tui/model.go:186-196 | without a new id the list stays in order if and only if the key still fits between its neighbours' |
| Transcript.MergeMessages | tui/relay/relay.go:289-310 | one entry per id, the inbox copy before the lane record, in (SortMS, ID) order, whatever order the map is walked in |
| SortKeys.FilenameRoundTrip | tui/relay/relay.go:192-201 | the millisecond a file was written in is read back from its name |
| SortKeys.KeysAgreeIff | tui/relay/relay.go:182-201 | inbox key and lane key agree if and only if stamp and file fall in the first millisecond of one second; otherwise the lane key is the lower |
| KeyChange.KeyAfterAckIff | tui/relay/relay.go:287-311 | so a message keeps its key when its last inbox copy goes if and only if that is so, and else its key falls |
| Resolvers.Project | tui/relay/relay.go:45-50 | searching the suffix pattern from the left strips the same text as reading the id from the right |
| Resolvers.ProjectIsDurableNick | dispatch_fs.py:177-184 | on ids that do not begin with a dash both languages name the same nick |
| Resolvers.ResolveRecipients | tui/relay/relay.go:462-497 | the two scans with their early return compute the resolution of `GoResolved` |
| Resolvers.ResolversAgree | dispatch_fs.py:209-253 | for every valid target, live set and roster the Go and the Python resolver return the same list |
| Resolvers.ResolutionShape | dispatch_fs.py:209-253 | a resolution is non-empty and duplicate-free; several entries are all live sessions of one nick |
| Resolvers.ResolutionCases | dispatch_fs.py:209-253 | a live target is reached itself; else all its live sessions; else all those of its nick, unless it is listed as remote; else the one inbox that waits, its own if remote and its nick's if not |
| Resolvers.CopiesShape | dispatch_fs.py:392-429 | refused exactly for an invalid target or channel, or one not on the roster if there is one; a direct message goes to the inboxes it resolves to, each copy naming its own; a broadcast keeps its `to` and reaches the roster or else the live agents, a post the subscribers, all but the sender |
| Resolvers.OfflineResolvesOnce | dispatch_fs.py:209-253 | with no live session of the target or its nick there is exactly one inbox, the target if remote, else the nick |
| Framing.Listener.Handle | bridge_native.py:510-531 | the effect of a connection is that of delivering, in order, the lines its chunks pass on |
| Framing.LinesAreSegments | bridge_native.py:518-523 | lines and rest take a stream apart at its newlines and nowhere else |
| Framing.ChunkIndependent | bridge_native.py:510-526 | however a stream with no over-long line is cut, exactly its non-blank newline-terminated segments are passed on in order |
| Framing.EachLineCounted | bridge_native.py:533-548 | each line is delivered, control or dropped, never two; the counters and the inbox say how many and which, all from the bridge's own id |
| Framing.TextsArrive | bridge_native.py:533-541 | the inbox gains exactly the texts of the delivered lines, in line order |
| Framing.PassedIsPrefix | bridge_native.py:518-526 | whatever the cuts, exactly the non-blank lines in front of some line over the limit are passed on, or all |
| Framing.CutsPassAllIff | bridge_native.py:518-526 | all cuts of a stream pass on all its non-blank lines if and only if none stands at or behind a line over the limit |
| Framing.CutsAgreeIff | bridge_native.py:510-548 | all cuts have the effect of all lines on inbox and counters if and only if no line the parser takes stands behind a line over the limit |
| Framing.LineFateIff | bridge_native.py:518-526 | the reader gets past a line under all cuts if and only if it is within the limit, under none if and only if it is a full read over it |

## Left out

- Real git, sockets, flock and subprocess calls, fsync and the states of temporary files: atomic abstract steps stand for them.
- JSON text: a file or line is a well-formed record or it is skipped, and decoding is a parameter.
- Pushing to the remote and the remote roster file: they touch no lane, cursor, ledger or inbox the model has. The guarded tick only swallows what `Bridge.GitBridge.Tick` raises.
- Native outbound delivery, the session registry, peer credentials, the IRC gateway, terminal rendering, TLS, installers, hooks and configuration: an external protocol, or no invariant to lose.
- Messages written by the Go `Send` into the bridge model: its copies do not carry the resolved `to`.
- Corrupt files, edited records, cross-account group mode and clocks that go backwards: their absence is assumed where a theorem asks for it.
- Bus.StepKeepsSound: a push and a fetch that fail change no lane, cursor or inbox; a record written by a failing commit counts as in its author's lane from then on.
- SupervisorRuns.SpawnRateBound: like the other run theorems of the supervisor takes clock readings that are positive, since 0.0 means "not waiting", and never go back, and non-dry passes for there to be spawns at all.
- SupervisorProgress.StartsEachRound: where at least as many other nicks have mail as the cap allows in flight, how long it holds a nick back depends on the fleet and is not bounded here.
- Delivery.EndToEnd: takes runs that republish nothing (`LoopFreedom.OneRecordIff`), a receiver whose clone of the lane is up to date, and a reading pass that gets through; `Delivery.CutDeliversIff` is the exact condition for one that does not.
- DirectMail.DirectMailArrives: the same, for the pass that reads the record.
- ChannelPosts.EndToEndPost: the same; `Delivery.CutDeliversIff` is about direct messages only.
- Inheritance.MailConserved: asks that a session id with a process id was never used for a directory before, that a session start is one step and so is a send with the directory it makes, that the registered nicks are as a reap finds them when it removes a directory, and that an owner's mark, ack or expiry of one file is one step not falling between rename and rewrite.
- Trigger.StartClearsTriggerIff: takes the sweep of a session that has just made its inbox directory; a reap in between is the subject of `Sweeps`.
- Trigger.Relay.InheritOrphanInbox: models the heir's inbox as a list to which adopted messages are appended; the order of file names in it is not modelled, and racing sweepers are the subject of `Inheritance`.
- MailboxRuns.ReceiptsTruthful: takes one call as one step with one clock reading, and covers one inbox between adoptions; adopting a message counts as a delivery.
- Mailbox.Mail.Ack: deletes the first match in listing order, where the code takes the order of the directory.
- Receipts.ReportedIsLastListed: asks for distinct (id, recipient) keys; with a key both shown and held back the memory is older than the last listing (`Receipts.HeldIsFreshIff`).
- Digest.WatermarkNeverLate: takes the presence lock and the registration of one claim as one step; `Digest.RegisterSafeIff` is the exact condition when they are two.
- Transcript.ViewedIsCap: asks that every id keeps its sort key; `KeyChange.SnapshotKeepsNewestIff` is the exact condition without that.
- SortKeys.KeysAgreeIff: file names are those the senders write, and decoding an ISO timestamp is a parameter: absent or an epoch second.
- Resolvers.ResolversAgree: asks that the two sides see the same live sessions and roster, without duplicates.
- Framing.ChunkIndependent: the read timeout and connection errors only end the list of chunks early.
- The mail and teammate sections of the digest, message clipping, instruction text and notification policy: settled by reading one branch.
- Ordering of files inside an inbox by name: lists stand in arrival order.
