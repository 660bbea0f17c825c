# Verification of the room balancer and the room server

A Dafny model of the parts of OpenTogetherTube in which state is shared, merged or replayed, with
proofs of what they promise. `dafny verify dfyconfig.toml` checks everything.

## What is modelled

**Which server owns a room.** Several monoliths can load the same room. The balancer keeps four
maps: clients, monoliths with their room tables, the locator of each room (monolith and load epoch),
and the monoliths of each region. `BalancerState` gives every lock-protected section as a function
on those maps, `BalancerContext` implements the sections on a mutable object and is proved against
the functions, `BalancerInvariants` says exactly which section keeps which invariant, and
`BalancerWorld` interleaves the sections, the sends between them (delivered, channel error, encoding
error) and the clients' channels as steps of a transition system, over all runs of any length.
`BalancerSections` says what each section does to every monolith, room, list and locator, and which
sections undo each other; `BalancerSeats` follows a client on its room's list over whole runs. On
top of that come the order of messages about one client (`BalancerSession`), the settlement of
conflicting loads (`LoadConflicts`) and the delivery of its unloads (`UnloadDelivery`), whole
gossips (`GossipRounds`), the loop that serves one client's socket (`ClientLoop`), the shared epoch
counter (`LoadEpochs`), and the names that key the maps (`RoomNames`). `BalancerWitnesses` holds
concrete runs that show that the guards in the theorems are needed.

**Who may do what.** `Permissions` and `Grants` model the permission table, parsing, and the masks
with inheritance recomputed on each write. Masks are sets of bit positions; `MaskBits` shows that
this is the same as the program's 32-bit integers. `RoomStorage` takes grants and user roles through
the database rows and the Redis lists and back.

**What a room plays.** `PlaybackClock` has the lazily evaluated clock, `VideoQueues` the queue,
`RoomState` every request as a function from room to room, and `Rooms` the room object whose methods
implement those requests field by field. `RoomEffects` says what each request leaves of every part
of a room. `QueueModes`, `UndoRequests`, `QueueUniqueness`, `QueueRuns`, `RoomVotes` and
`RoomReload` prove what the requests do together and over whole histories. `DeltaSync` adds the
clients' copies: each operation marks what it changed, a sync sends what is marked, and the copies
stay right. `SyncedFields` states that property by property in the room's own fields. `AspectRatio`
covers the classification of video sizes.

## Hypotheses

- Ids of monoliths and clients are never reused.
- Monolith selection answers with some member of the filtered list, or with nothing when it is
  empty.
- A client's socket yields no text after its close.
- Room names stand for their lower-case form, which `RoomNames.EqOrdHashAgree` justifies.
- A sync of a room, a skip and each queue operation is one atomic step, although the code awaits
  inside them.
- The clock uses exact reals; its times are arguments, and need not even be ordered.
- What the program fetches from elsewhere (video information, votes, permissions of the request) is
  an argument.

## Where the code and its promises differ

The model follows the code. Where a promised property fails, the condition under which it holds is
proved in both directions.

- The map and the room tables agree at every point of a run if and only if every report comes from a
  registered monolith (or loses) and every join is committed while its room is still located where
  the join began (`BalancerWorld.RunCoupledExactly`). A report writes the locator before it looks
  the reporter up, so joins can panic if and only if some report was not guarded
  (`BalancerWorld.RunPanicFreeExactly`, `BalancerWitnesses.LateReportPanics`). Adding a client to an
  absent room creates the room, so clients are placed where their room is located if and only if no
  join is committed late (`BalancerWorld.RunPlacedExactly`); one that is can leave its client listed
  for ever (`BalancerWitnesses.LateJoinStaysListed`).
- A client is on its room's list from its commit on if and only if the monolith that was told of it
  is registered at the commit, the room stays located there, and the client's close is not handled
  (`BalancerSeats.CommittedClientStaysListed`); when a report moves the room, its clients stay
  registered, but on no list.
- A leave is told to whoever has the room at that moment. Monoliths hear of leaves of unknown
  clients if and only if a leave is delivered whose close was handled while the room was located on
  another monolith than the connection's (`BalancerSession.RunInOrderExactly`), which happens when
  the room moved (`BalancerWitnesses.MovedRoomTellsStranger`).
- A room whose locator names a monolith that is gone is stuck: no report and no gossip by another
  monolith moves it, and those with younger epochs are even told to unload it
  (`LoadConflicts.StuckRoom`, `GossipRounds.GossipRepairsExactly`). The oldest claim wins if and
  only if the room is not stuck (`LoadConflicts.OldestClaimWins`).
- Balancers that hear reports in different orders agree in all orders if and only if the smallest
  epoch is claimed by one monolith, or the room is stuck (`LoadConflicts.OrdersAgreeExactly`). With
  shared epochs a loser can stay untold: exactly those are told that report after an older epoch or
  are replaced by one (`LoadConflicts.UnloadsExactly`). Epochs are unique if and only if no load
  starts after the counter was reset (`LoadEpochs.EpochsDistinctExactly`); around a reset the
  repeats can be close together (`LoadEpochs.LateResetRepeatsEpoch`).
- The own region's list is used even when it is empty; exactly then a new room has no candidate
  although monoliths are registered (`BalancerInvariants.CandidatesMeaning`).
- Once its loop has finished, a connection has reported its end to the balancer if and only if the
  server did not close it and the channel is open (`ClientLoop.Serve`), so a kicked client is never
  reported (`ClientLoop.KickedClientIsNotReported`).
- Taking a permission away from a role does not take it away from higher roles
  (`Grants.WriteMeaning`); a permission name that selects nothing is granted to everybody
  (`Grants.GrantedMeaning`); grants read from a string are complete if and only if the string gives
  the administrator everything (`Grants.DeserializedForcesOwnerOnly`).
- The clock is exact unless a skip was undone while it played away from its last restart
  (`PlaybackClock.ExactUnlessUndoneSkip`, `PlaybackClock.UndoneSkipRunsAhead`). Undoing a skip
  restores the videos only in manual and vote mode and away from position zero
  (`UndoRequests.UndoSkip`), undoing an addition only when the found video has the id asked for
  (`UndoRequests.UndoAddition`), and undoing the addition of a list never does: it drops the current
  video instead (`UndoRequests.UndoListAddition`).
- A video is never in a room twice if and only if every operation of the history is guarded
  (`QueueRuns.HistoryUniqueExactly`): aliases, lists that repeat themselves, restores and undos can
  break it, and an undone skip at position zero does (`QueueRuns.UndoneSkipRepeats`).
- Playing a queued video at once loses it if and only if its subtitle is refused
  (`QueueUniqueness.RefusedSubtitleLosesVideo`).
- Votes are counted under service and id written together, so videos of different services can share
  them, and the condition is exact (`RoomEffects.VotesSharedExactly`).
- A subtitle that is just `vtt` or empty can be added, but not edited in
  (`RoomEffects.SubtitlesAccepted`).
- A client that left has no votes if and only if the room is in vote mode or it had none
  (`RoomVotes.LeavingWithdrawsVotes`).
- A shuffle is not sent to the clients, unless the queue was due anyway
  (`DeltaSync.ShuffleIsNotSynced`); the copies of the queue are right throughout a run if and only
  if every shuffle moves nothing or finds the queue due (`DeltaSync.RunKeepsQueueExactly`).
- A client makes its own grants object from what it is sent, with administrator and owner full, so
  its grants are the room's if and only if those are good (`DeltaSync.GrantsAgreeExactly`), which no
  request can spoil (`DeltaSync.OpKeepsCopyable`).
- Of two squares the larger can get the smaller resolution label, in one range
  (`AspectRatio.LargerSquareSmallerLabel`).

## Model

| member | source | states |
|---|---|---|
| RoomNames.Hash | crates/ott-balancer-protocol/src/wrappers.rs:151-158 | a hasher absorbs exactly the lower-case characters of the name |
| RoomNames.EqOrdHashAgree | crates/ott-balancer-protocol/src/wrappers.rs:131-158 | equality, `cmp == Equal` and equal hash input all mean the same thing: equal up to ASCII case, so lower-case keys lose nothing |
| RoomNames.CompareStringsReversed | crates/ott-balancer-protocol/src/wrappers.rs:143-149 | comparing the other way round gives the opposite answer |
| RoomNames.CompareStringsTransitive | crates/ott-balancer-protocol/src/wrappers.rs:143-149 | the string comparison is transitive, and equal ends force all three equal |
| RoomNames.CompareIsTotalOrder | crates/ott-balancer-protocol/src/wrappers.rs:137-149 | the ordering of names is total, antisymmetric up to ASCII case, and transitive |
| RoomNames.SameUpToCaseExactly | crates/ott-balancer-protocol/src/wrappers.rs:131-158 | two characters are the same exactly if equal or one is the ASCII capital of the other, and no capital is left in a key |
| RoomNames.SameNameExactly | crates/ott-balancer-protocol/src/wrappers.rs:131-158 | two names share a key exactly if they have the same characters but for ASCII capitals; a key is its own key |
| RoomNames.LessExactly | crates/ott-balancer-protocol/src/wrappers.rs:143-149 | a string is less exactly if it is a proper beginning or has the smaller character where they first differ |
| BalancerContext.Context.AddMonolith | crates/ott-balancer/src/balancer.rs:279-284 | registers a monolith with no rooms and appends it to its region's list |
| BalancerContext.Context.RemoveMonolith | crates/ott-balancer/src/balancer.rs:286-305 | forgets the monolith, everything located on it and every client whose room is located nowhere any more |
| BalancerContext.Context.AddRoom | crates/ott-balancer/src/balancer.rs:307-316 | writes the locator first and then fails if the monolith already has the room |
| BalancerContext.Context.RemoveRoom | crates/ott-balancer/src/balancer.rs:318-333 | drops the room from that monolith, and its locator only when it names that monolith |
| BalancerContext.Context.AddOrSyncRoomSection | crates/ott-balancer/src/balancer.rs:762-824 | settles a load report under the lock, with the verdict that decides who is told to unload |
| BalancerContext.Context.AddOrSyncRoom | crates/ott-balancer/src/balancer.rs:336-408 | the form that keeps the lock: it looks the reporter up before writing the locator |
| BalancerContext.Context.FilterMonoliths | crates/ott-balancer/src/balancer.rs:432-444 | returns exactly the candidates for a new room, once each when the region index is right |
| BalancerContext.Context.BeginJoin | crates/ott-balancer/src/balancer.rs:513-553 | first locked section of a join: a loaded room is joined where its locator says; else selects and creates, refuses, or panics on an `unwrap` |
| BalancerContext.Context.CommitJoin | crates/ott-balancer/src/balancer.rs:572-580 | second locked section: if the monolith is registered, the client is on its list for the room and registered with it, the room being created there if it is gone |
| BalancerContext.Context.AbortJoin | crates/ott-balancer/src/balancer.rs:581-592 | undelivered join: undoes the room it created and removes the monolith |
| BalancerContext.Context.BeginLeave | crates/ott-balancer/src/balancer.rs:614-633 | unregisters the client, removes it from every room of the monolith its room is located on, and says who is to be told |
| BalancerContext.Context.Gossip | crates/ott-balancer/src/balancer.rs:889-925 | a whole gossip: each room settled in order, failures dropped, forgotten rooms removed |
| BalancerContext.Context.RemoveGossipedAway | crates/ott-balancer/src/balancer.rs:922-925 | removes exactly the forgotten rooms from the sender |
| BalancerContext.Retain | crates/ott-balancer/src/monolith.rs:321-324 | keeps every other id in order |
| BalancerContext.RemoveClientFromRooms | crates/ott-balancer/src/monolith.rs:227-231 | the id is removed from every room of the monolith and nothing else changes |
| BalancerInvariants.CoupledMeansExactMap | crates/ott-balancer/src/balancer.rs:191-197 | the coupling invariant says: the map sends a room to a monolith exactly when that monolith is registered and has the room; so no room is on two monoliths |
| BalancerInvariants.AddMonolithKeepsCoupling | crates/ott-balancer/src/balancer.rs:279-284 | registering a new monolith keeps both halves of the coupling |
| BalancerInvariants.RemoveMonolithKeepsCoupling | crates/ott-balancer/src/balancer.rs:286-305 | removing a monolith keeps both halves of the coupling |
| BalancerInvariants.RemoveRoomKeepsCoupling | crates/ott-balancer/src/balancer.rs:318-333 | removing a room keeps both halves, also when the locator names someone else |
| BalancerInvariants.BeginJoinKeepsCoupling | crates/ott-balancer/src/balancer.rs:513-553 | the first half of a join keeps both halves of the coupling |
| BalancerInvariants.BeginLeaveKeepsCoupling | crates/ott-balancer/src/balancer.rs:614-633 | a leave keeps both halves of the coupling |
| BalancerInvariants.ReportKeepsCoupling | crates/ott-balancer/src/balancer.rs:762-824 | a report keeps every locator pointing at a registered monolith that has the room if and only if the reporter is registered or the report loses |
| BalancerInvariants.CommitJoinKeepsCoupling | crates/ott-balancer/src/balancer.rs:572-580 | committing a join keeps the coupling if and only if the room is still located where the join began |
| BalancerInvariants.BeginJoinPanicsOnDanglingLocator | crates/ott-balancer/src/balancer.rs:513-546 | the `unwrap`s fail if and only if the locator names a monolith that is gone or lacks the room |
| BalancerInvariants.PanicFreeMeansSound | crates/ott-balancer/src/balancer.rs:513-546 | no join of any room can panic if and only if every locator names a registered monolith that has the room |
| BalancerInvariants.LateCommitMisplaces | crates/ott-balancer/src/balancer.rs:572-580 | a join committed where its room is not located misplaces the client at once |
| BalancerInvariants.BeginLeaveKeepsPlacement | crates/ott-balancer/src/balancer.rs:611-633 | after a leave the id is on no room's list anywhere, and every listed client is still registered with that room |
| BalancerInvariants.CommitJoinKeepsPlacement | crates/ott-balancer/src/balancer.rs:572-580 | a join to a registered monolith lists the client, once, in the room it is registered with, and keeps placement |
| BalancerInvariants.RemoveMonolithKeepsPlacement | crates/ott-balancer/src/balancer.rs:286-304 | placement is kept, and every remaining client's room has a locator |
| BalancerInvariants.RemoveRoomKeepsPlacement | crates/ott-balancer/src/balancer.rs:318-333 | dropping a room keeps placement |
| BalancerInvariants.ReportKeepsPlacement | crates/ott-balancer/src/balancer.rs:762-824 | settling a report keeps placement |
| BalancerInvariants.BeginJoinKeepsPlacement | crates/ott-balancer/src/balancer.rs:513-553 | a beginning join keeps placement |
| BalancerInvariants.AddMonolithKeepsPlacement | crates/ott-balancer/src/balancer.rs:279-284 | a new monolith keeps placement |
| BalancerInvariants.PlacedOnce | crates/ott-balancer/src/balancer.rs:467-503 | a client appears in at most one room of the snapshot, once, and that room is located there |
| BalancerInvariants.AddMonolithKeepsIndex | crates/ott-balancer/src/balancer.rs:279-284 | the region index stays right if and only if the id is new |
| BalancerInvariants.RemoveMonolithKeepsIndex | crates/ott-balancer/src/balancer.rs:286-293 | the region index stays right after a removal |
| BalancerInvariants.CandidatesMeaning | crates/ott-balancer/src/balancer.rs:432-444 | candidates are the registered monoliths of the own region once that region was ever seen, else all; so there can be none although monoliths are registered |
| BalancerInvariants.ReportRefinesLockedReport | crates/ott-balancer/src/balancer.rs:336-408 | releasing the lock before the unload is sent gives the same verdict always, and the same state if and only if the report is safe |
| BalancerSections.BeginJoinReuses | crates/ott-balancer/src/balancer.rs:513-546 | a join of a loaded room is sent where its locator says, whatever selection would answer, and moves nothing |
| BalancerSections.BeginJoinCreates | crates/ott-balancer/src/balancer.rs:522-538 | a join of a room that is located nowhere puts it, empty, on the selected monolith, as one that nobody reported yet, and moves nothing else |
| BalancerSections.BeginJoinStartsExactly | crates/ott-balancer/src/balancer.rs:513-553 | exactly when a join starts and when it is refused, and what a refused one leaves |
| BalancerSections.JoinedRoomGoesToOldest | crates/ott-balancer/src/balancer.rs:533-538 | a room that a join created goes to the first of the oldest that report it, whichever monolith the join chose |
| BalancerSections.CommitJoinLists | crates/ott-balancer/src/balancer.rs:572-580 | a commit appends the client to that one list, registers it with the room, and does nothing else |
| BalancerSections.CommitJoinFails | crates/ott-balancer/src/balancer.rs:574-577 | a commit fails, changing nothing, if and only if the monolith is gone |
| BalancerSections.JoinIsTakenBack | crates/ott-balancer/src/balancer.rs:581-607 | taking back a join that was not delivered gives the state before it began, without the monolith if the channel failed |
| BalancerSections.BeginLeaveUnlists | crates/ott-balancer/src/balancer.rs:614-633 | a leave takes its client off the lists of the monolith where its room is located, and nobody else off any list |
| BalancerSections.LeaveUndoesCommit | crates/ott-balancer/src/balancer.rs:572-633 | a timely commit followed by the leave gives the state before, and names that monolith to be told |
| BalancerSections.AddMonolithAddsOnly | crates/ott-balancer/src/balancer.rs:279-284 | a new monolith has no rooms and comes last in its region; nothing else changes |
| BalancerSections.RemoveMonolithForgets | crates/ott-balancer/src/balancer.rs:286-305 | exactly the monolith, the locators that name it and the clients whose rooms are located nowhere else are forgotten |
| BalancerSections.RemoveMonolithUnlists | crates/ott-balancer/src/balancer.rs:288-293 | its region's list loses the id and keeps the order of the others |
| BalancerSections.RemoveRoomDropsOnly | crates/ott-balancer/src/balancer.rs:318-333 | a dropped room is gone from that monolith only, with its locator if it names that monolith |
| BalancerSections.ReportRecords | crates/ott-balancer/src/balancer.rs:762-824 | a report that is settled for its sender leaves the room there with its metadata and its listed clients and takes it off the other; any other by a registered monolith changes nothing |
| BalancerSections.LockedReportOfUnknown | crates/ott-balancer/src/balancer.rs:336-408 | the form that keeps the lock writes no locator for an unknown sender, but the instance that it would have replaced is gone |
| BalancerSeats.StepKeepsSeatExactly | crates/ott-balancer/src/balancer.rs:506-845 | a step takes a listed client off its list if and only if it moves the room or handles the client's own close |
| BalancerSeats.RunSeatedExactly | crates/ott-balancer/src/balancer.rs:506-845 | over every interleaving a client stays registered and on its room's list at every point if and only if the room stays located there and the client's close is not handled |
| BalancerSeats.CommitSeatsExactly | crates/ott-balancer/src/balancer.rs:572-580 | a commit puts its client on the list where its room is located if and only if that monolith is registered and the room is located there |
| BalancerSeats.CommitLinksExactly | crates/ott-balancer/src/balancer.rs:572-611 | the client gets its channel to the monolith if and only if that is registered at the commit and the client's task still waits |
| BalancerSeats.CommittedClientStaysListed | crates/ott-balancer/src/balancer.rs:572-655 | from its commit on, over every interleaving, a client is on the list of the monolith that was told of it if and only if that is registered then, the room stays there and its close is not handled |
| BalancerSeats.JoinFollowsLocator | crates/ott-balancer/src/balancer.rs:513-553 | the monolith that a join is for has the room and is the one the room is located on: the one that had it, or else the selected one |
| BalancerSeats.JoinIsSentHome | crates/ott-balancer/src/balancer.rs:564-580 | a delivered join is in that monolith's outbox and in no other |
| BalancerSeats.MonolithStepsTakeEffect | crates/ott-balancer/src/balancer.rs:279-333 | a monolith that joins is registered, one that leaves is not, and a room that it drops is gone |
| BalancerSeats.FramesAreHandledInOrder | crates/ott-balancer/src/balancer.rs:611-736 | a client's frames are handled in order; a text is told to the monolith of its channel, and with a close the client is registered no more |
| BalancerSeats.FailedJoinIsTakenBack | crates/ott-balancer/src/balancer.rs:581-607 | a join that cannot be encoded leaves the balancer as it was, one that does not get through as it was without that monolith |
| BalancerSeats.FailedLeave | crates/ott-balancer/src/balancer.rs:635-652 | a leave that does not get through costs the monolith its registration, one that cannot be encoded nothing |
| BalancerWorld.EveryStepOk | crates/ott-balancer/src/balancer.rs:506-845 | each step of any task keeps fresh ids, placement and index, and keeps the coupling exactly when its guard holds |
| BalancerWorld.RunLocatorsSoundExactly | crates/ott-balancer/src/balancer.rs:749-845 | over every interleaving, all locators are sound at every point if and only if every report is guarded |
| BalancerWorld.RunCoupledExactly | crates/ott-balancer/src/balancer.rs:506-845 | over every interleaving, the map and the room tables agree exactly at every point if and only if every report and every join commit is guarded |
| BalancerWorld.RunPanicFreeExactly | crates/ott-balancer/src/balancer.rs:513-546 | over every interleaving, no join can hit a failing `unwrap` at any point if and only if every report is guarded |
| BalancerWorld.StepPlacesExactly | crates/ott-balancer/src/balancer.rs:572-580 | a step leaves some client listed where its room is not located if and only if it is a late join commit |
| BalancerWorld.RunPlacedExactly | crates/ott-balancer/src/balancer.rs:286-655 | over every interleaving and whatever is reported, every listed client is registered with that room, once, and the room is located there, at every point, if and only if every join commit is guarded |
| BalancerWorld.RunPlacesOnce | crates/ott-balancer/src/balancer.rs:467-503 | after every run with guarded commits a client is in at most one room of the snapshot |
| BalancerWorld.RunKeepsIndex | crates/ott-balancer/src/balancer.rs:279-304 | the region index agrees with a scan of the monoliths after every run |
| BalancerSession.StepKeepsSession | crates/ott-balancer/src/balancer.rs:564-655 | every step of every task keeps each client's session in its phase |
| BalancerSession.RunKeepsSession | crates/ott-balancer/src/balancer.rs:564-736 | every run does |
| BalancerSession.RunTellsInOrder | crates/ott-balancer/src/balancer.rs:564-736 | a client's home monolith is told Join, then any messages, then at most one Leave; every other monolith nothing or one Leave; one Leave over all monoliths |
| BalancerSession.StepTellsStranger | crates/ott-balancer/src/balancer.rs:614-655 | a step tells a monolith that was not told of the join if and only if it delivers a leave away from the client's home |
| BalancerSession.InOrderUnlessStranger | crates/ott-balancer/src/balancer.rs:564-736 | from any state, every monolith told of a leave was told of the join, at every point, if and only if no leave is delivered away from the client's home |
| BalancerSession.RunInOrderExactly | crates/ott-balancer/src/balancer.rs:564-736 | over every interleaving from an empty balancer the same holds if and only if no leave is delivered whose close was handled while the room was located on a registered monolith other than the one the connection belongs to |
| BalancerSession.LeaveFollowsLocator | crates/ott-balancer/src/balancer.rs:614-633 | a leave is announced exactly to the registered monolith on which the room is located at that moment |
| BalancerWitnesses.LateReportPanics | crates/ott-balancer/src/balancer.rs:813-819 | a monolith joins and leaves, and a report of it that is handled afterwards leaves a dangling locator, so that the next join panics |
| BalancerWitnesses.LateJoinStaysListed | crates/ott-balancer/src/balancer.rs:572-580 | a join committed after its room was unloaded recreates the room without a locator, and the client stays listed after it left |
| BalancerWitnesses.MovedRoomTellsStranger | crates/ott-balancer/src/balancer.rs:614-655 | a fully guarded run in which the Leave goes to a monolith that never got the Join |
| LoadConflicts.ClaimMovesLocator | crates/ott-balancer/src/balancer.rs:762-824 | what one report does to the locator: the older epoch keeps or gets the room |
| LoadConflicts.ClaimUnloadsLoser | crates/ott-balancer/src/balancer.rs:777-840 | one report tells the loser, and only the loser, to unload |
| LoadConflicts.LeaderWins | crates/ott-balancer/src/balancer.rs:762-824 | when the room's locator names no monolith that is gone, the first claimant with the smallest epoch ends up with the room, whatever comes before, after and again |
| LoadConflicts.StuckRoom | crates/ott-balancer/src/balancer.rs:806-840 | while a room's locator names a monolith that is gone, no reports by others change anything, and exactly the registered reporters with a younger epoch are told to unload |
| LoadConflicts.OldestClaimWins | crates/ott-balancer/src/balancer.rs:762-824 | any non-empty sequence of reports with one epoch per monolith, in any order and with repeats, ends on the first reporter with the smallest epoch, at that epoch, if and only if the room's locator does not name a monolith that is gone |
| LoadConflicts.BalancersAgree | crates/ott-balancer/src/balancer.rs:762-824 | two balancers that heard the same reports in different orders end with the same locator when the smallest epoch belongs to one monolith |
| LoadConflicts.OrderDecides | crates/ott-balancer/src/balancer.rs:806-809 | of the monoliths that share the smallest epoch, whichever is reported first keeps the room |
| LoadConflicts.OrdersAgreeExactly | crates/ott-balancer/src/balancer.rs:762-824 | all orders of the same reports end with the same locator if and only if the smallest epoch is claimed by one monolith only or the room's locator names a monolith that is gone |
| LoadConflicts.UnloadsExactly | crates/ott-balancer/src/balancer.rs:777-840 | with any epochs shared between monoliths: a monolith is named to be unloaded if and only if it reported after an older epoch or led and was replaced by an older one, or a join had placed the room there and another monolith reported it first |
| LoadConflicts.LosersUnload | crates/ott-balancer/src/balancer.rs:777-840 | when no two monoliths share an epoch, those are the monoliths that reported the room and do not own it at the end, and the one on which a join had placed it, if another reported it first |
| UnloadDelivery.RunMakesDue | crates/ott-balancer/src/balancer.rs:749-840 | whatever the interleaving of reports and sends, exactly the monoliths that the settlement names have been told to unload or are about to be |
| UnloadDelivery.ToldExactly | crates/ott-balancer/src/balancer.rs:749-840 | once all unloads are delivered, a monolith's outbox holds an Unload for the room if and only if it reported late or led and was replaced, or a join had placed the room there and another was first to report it |
| UnloadDelivery.LosersAreTold | crates/ott-balancer/src/balancer.rs:749-840 | when no two monoliths share an epoch, those are the reporters that do not own the room, and the one on which a join had placed it |
| GossipRounds.GossipAllRoom | crates/ott-balancer/src/balancer.rs:904-920 | what a gossip does to each room in any state: won by the sender or lost, by its epochs and by who is registered |
| GossipRounds.GossipMakesTable | crates/ott-balancer/src/balancer.rs:889-925 | afterwards the sender's table is exactly the gossiped rooms located on it, and every gossiped room is located |
| GossipRounds.GossipTakesOnlyYounger | crates/ott-balancer/src/balancer.rs:889-925 | a room is taken from another monolith if and only if that one is registered and the recorded epoch is larger than a gossiped one; otherwise its locator and table entry stay |
| GossipRounds.GossipKeepsSound | crates/ott-balancer/src/balancer.rs:889-925 | a gossip from a registered monolith keeps all locators sound |
| GossipRounds.GossipRepairsExactly | crates/ott-balancer/src/balancer.rs:889-925 | after a gossip a gossiped room is located on a monolith that has it if and only if the sender won it or it was so before; a locator to a monolith that is gone is not repaired |
| GossipRounds.GossipIdempotent | crates/ott-balancer/src/balancer.rs:889-925 | the same gossip again changes nothing at all, in any state |
| ClientLoop.DrainOutbound | crates/ott-balancer/src/client.rs:335-351 | draining stops at the first failed send or the first close with a code, and reports whether that close went out |
| ClientLoop.Serve | crates/ott-balancer/src/client.rs:268-366 | the balancer receives the forwarded frames up to the turn that ended the loop, then one final notice if and only if no close was sent and the channel is open |
| ClientLoop.EndedComesLast | crates/ott-balancer/src/client.rs:354-366 | nothing follows the final notice |
| ClientLoop.ForwardsInOrder | crates/ott-balancer/src/client.rs:306-322 | all of the client's messages and its own closes are forwarded, in order, and nothing else |
| ClientLoop.EndsExactly | crates/ott-balancer/src/client.rs:268-332 | the loop ends with the first turn in which the balancer is gone, a send or the reading fails, or the server's close with a code goes out |
| ClientLoop.DrainClosesExactly | crates/ott-balancer/src/client.rs:335-351 | draining sends the server's close if and only if a close with a code comes before every failed send |
| ClientLoop.KickedClientIsNotReported | crates/ott-balancer/src/client.rs:274-290 | a client that the server closes is never reported as gone, so no leave follows from it |
| Permissions.ParseIntoGrantMask | common/permissions.ts:190-203 | the nested loops collect exactly the permissions some name selects |
| Permissions.ParsedMaskExact | common/permissions.ts:190-203 | a permission is in the mask if and only if a requested name is a star or a prefix of it |
| Permissions.ValidationMaskGrows | common/permissions.ts:208-214 | administrator and owner may hold everything; higher roles at least as much as lower ones, each exactly the permissions whose minimum role is not above it |
| Permissions.ValidationMaskExact | common/permissions.ts:208-214 | a role may be granted a permission if and only if its minimum role is not above that role |
| Permissions.ValidationMaskKnown | common/permissions.ts:208-214 | no role may be granted a bit that stands for no permission |
| Permissions.SelectsExactly | common/permissions.ts:190-203 | a name selects what it begins, and only a star selects everything |
| MaskBits.OperatorsAreSetOperations | common/permissions.ts:308-318 | on 32-bit masks, bitwise or is union and bitwise and is intersection of bit sets |
| MaskBits.RepresentedOnce | common/permissions.ts:239-239 | a set of bits stands for one integer only |
| MaskBits.TestsAreSetTests | common/permissions.ts:334-336 | the test `(full & check) === check` is inclusion |
| Grants.Grants.ProcessInheritance | common/permissions.ts:313-319 | each role 0..4 ends with the union of the masks up to it |
| Grants.Grants.SetRoleGrants | common/permissions.ts:302-311 | a valid role gets the mask within its limits and inheritance is recomputed, so a lower role of a good object holds a permission if and only if the role below did or it was asked for and the role is not below its minimum; an invalid role is refused unchanged |
| Grants.Grants.SetAllGrants | common/permissions.ts:264-287 | whatever order the map yields its entries in, the result is the closed form; refused if and only if a non-empty entry has an invalid role, and then the closed form of the entries taken before it |
| Grants.Grants.Reset | common/permissions.ts:244-254 | the constructor: closed form with administrator and owner full, or refused like setAllGrants |
| Grants.Grants.ResetToDefault | common/permissions.ts:163-185 | the constructor without grants: the default grants, which going through the constructor twice does not change |
| Grants.Grants.GrantedPermission | common/permissions.ts:324-337 | a permission given as an object is granted if and only if the role has its bit |
| Grants.Grants.Granted | common/permissions.ts:324-337 | granted if and only if every selected permission is in the role's mask |
| Grants.ProgramLimitsOk | common/permissions.ts:208-214 | the program's table satisfies what the lemmas assume of the limits |
| Grants.WriteKeepsClosedForm | common/permissions.ts:272-278 | writing one more role turns the closed form of the written roles into that of one role more: order is irrelevant |
| Grants.WriteMeaning | common/permissions.ts:302-319 | what one write does to each role: higher roles only gain, lower ones keep theirs |
| Grants.WriteKeepsGood | common/permissions.ts:302-319 | a write keeps an object good if and only if it does not shrink administrator or owner |
| Grants.WritesKeepGood | common/permissions.ts:302-319 | any sequence of writes to roles 0..3 keeps masks increasing, within limits, and the two top roles full |
| Grants.WriteGivesExactly | common/permissions.ts:302-319 | a written role holds a permission if and only if the role below does, or it was asked for and the role is not below the permission's minimum |
| Grants.WritesRespectMinRoles | common/permissions.ts:208-311 | after any writes to roles 0..3 no role holds a permission whose minimum role is above it |
| Grants.ClosedFormMask | common/permissions.ts:264-319 | role i holds the union over j <= i of what j was given within j's limits |
| Grants.EmptyWriteChangesNothing | common/permissions.ts:279-286 | writing an empty entry, as the older form does, changes no role's mask |
| Grants.DefaultsAreGood | common/permissions.ts:163-185 | the default grants make a good object |
| Grants.DefaultsExactly | common/permissions.ts:163-185 | what each role may do by default: what its own names select within its limits, and what lower roles may |
| Grants.DefaultsForModerators | common/permissions.ts:177-181 | by default moderators kick users and promote and demote trusted ones, and lower roles do not |
| Grants.ConstructedMask | common/permissions.ts:244-254 | the constructor's object, role by role |
| Grants.ConstructedGood | common/permissions.ts:244-254 | every constructed object is good |
| Grants.RebuiltFromLowerRoles | common/permissions.ts:244-287 | rebuilding from the four lower masks alone gives the same object back |
| Grants.ClosedFormOfGood | common/permissions.ts:264-287 | copying a good object with setAllGrants is exact |
| Grants.DeserializedForcesOwnerOnly | common/permissions.ts:393-398 | reading a string forces the owner only: the object is good if and only if the string gives the administrator everything |
| Grants.GoodSurvivesSerialization | common/permissions.ts:386-398 | a good object survives serialize and deserialize |
| Grants.CopiedExactly | common/permissions.ts:244-287 | making an object from the masks of another copies it if and only if that one is good |
| Grants.RegrantedKeepsGood | server/room.ts:1580-1650 | no settings request for other grants spoils a good object, whatever roles and masks it names |
| Grants.RegrantedOneMore | server/room.ts:1580-1650 | a request's writes are carried out in order, roles 0..3 only and only where the mask differs from the one before the request |
| Grants.RegrantGivesExactly | server/room.ts:1580-1650 | a request for one role gives it a permission if and only if the role below has it, or it was asked for and the role is not below its minimum; administrator and owner cannot be changed |
| Grants.GrantedMeaning | common/permissions.ts:324-337 | a request that selects nothing is granted to everybody |
| Grants.GrantsInherited | common/permissions.ts:313-337 | what a role may do every higher role may do |
| RoomStorage.ReadPairs | common/permissions.ts:266-268 | reading pairs builds the map they stand for, later pairs overriding earlier |
| RoomStorage.ListedMapReturns | common/permissions.ts:400-402 | a map listed in any order comes back |
| RoomStorage.LastPairCounts | common/permissions.ts:266-268 | of several pairs for a role the last one counts |
| RoomStorage.ToJson | common/permissions.ts:400-402 | lists each entry once |
| RoomStorage.GrantsToDb | server/storage/room.ts:133-146 | lists all masks but administrator's and owner's |
| RoomStorage.GoodReturnsFromList | server/storage/room.ts:108-117 | a good object is rebuilt from its list with or without the two top roles |
| RoomStorage.GrantsSurviveStorage | server/storage/room.ts:108-146 | every object reachable by the constructor and writes to roles 0..3 is rebuilt with identical masks, from the database rows and from the Redis list |
| RoomStorage.ListSet | server/storage/room.ts:158-164 | lists each member once |
| RoomStorage.RolesToDb | server/storage/room.ts:158-164 | the three role columns list exactly the users of the three elevated roles |
| RoomStorage.DbToRoles | server/storage/room.ts:124-126 | reads the three columns back into sets |
| RoomStorage.UserRolesSurviveDatabase | server/storage/room.ts:108-166 | every elevated role keeps its users; the map is the same if and only if it had just those three roles |
| RoomStorage.RedisToRoles | server/roommanager.ts:65-69 | reads the listed roles back into sets |
| RoomStorage.UserRolesSurviveRedis | server/roommanager.ts:65-76 | user roles survive Redis in whatever order they were listed |
| PlaybackClock.NoJump | server/room.ts:1125-1144 | play, pause and speed change never move the shown position; the others move it to what they set |
| PlaybackClock.Advances | server/room.ts:713-727 | between events the shown position moves at the speed of a playing clock |
| PlaybackClock.ApplyKeepsStarted | server/room.ts:1125-1144 | a playing clock always has a start time |
| PlaybackClock.ShowsIntegral | server/room.ts:713-727 | for every history, the lazy clock shows the last position set plus the sum of speed times elapsed time over the playing intervals since (plus the lag of an undone skip) |
| PlaybackClock.ExactUnlessUndoneSkip | server/room.ts:1409-1417 | the clock is exact if and only if the position was not last set by undoing a skip while the clock played, at non-zero speed, away from its last restart |
| PlaybackClock.UndoneSkipRunsAhead | server/room.ts:1409-1417 | a concrete undone skip shows 105 seconds instead of 100 |
| PlaybackClock.UnstartedStandsStill | server/room.ts:721-727 | exactly when the shown position does not depend on time, and which events start a clock that plays without a start time |
| VideoQueues.VideoQueue.Enqueue | server/videoqueue.ts:43-54 | appends; marks only when something is added |
| VideoQueues.VideoQueue.Dequeue | server/videoqueue.ts:57-63 | takes the first item, marks always |
| VideoQueues.VideoQueue.PushTop | server/videoqueue.ts:66-77 | puts the videos in front, in order |
| VideoQueues.VideoQueue.Insert | server/videoqueue.ts:80-94 | inserts at the index, or refuses exactly the indices out of bounds |
| VideoQueues.VideoQueue.Move | server/videoqueue.ts:99-114 | moves one item; moving onto itself is accepted even out of bounds and marks nothing |
| VideoQueues.VideoQueue.FindIndex | server/videoqueue.ts:116-122 | the first position of the video, if any |
| VideoQueues.VideoQueue.Evict | server/videoqueue.ts:130-141 | removes the first match and returns it with its index, or refuses unchanged |
| VideoQueues.VideoQueue.Update | server/videoqueue.ts:144-153 | patches the first match in place, or refuses unchanged |
| VideoQueues.VideoQueue.OrderBy | server/videoqueue.ts:156-171 | puts the queue into its one stable order and marks exactly when that moved something |
| VideoQueues.VideoQueue.Shuffle | server/videoqueue.ts:173-177 | any permutation; marks nothing |
| VideoQueues.VideoQueue.Set | server/videoqueue.ts:35-40 | replaces all items |
| VideoQueues.InsertUndoesRemove | server/videoqueue.ts:80-141 | inserting what was removed where it was removed restores the queue |
| VideoQueues.MoveMeaning | server/videoqueue.ts:99-114 | the item lands where asked, all others keep their order, nothing is lost, and the opposite move undoes it |
| VideoQueues.OrderedIsStable | server/videoqueue.ts:156-171 | ordering keeps exactly the items, sorts by descending key and keeps ties in the old order |
| VideoQueues.StableOrderUnique | server/videoqueue.ts:156-171 | there is only one such order |
| VideoQueues.OrderedWhenSorted | server/videoqueue.ts:156-171 | ordering changes nothing if and only if the queue is in order; twice is once |
| VideoQueues.Sort | server/videoqueue.ts:156-171 | the stable sort that ordering uses |
| QueueModes.LoopAdvance | server/room.ts:531-544 | in loop mode an advance puts the trimmed current video behind the queue and plays the next |
| QueueModes.DjAdvance | server/room.ts:525-530 | in disc-jockey mode the current video starts over, trimmed |
| QueueModes.PlainAdvance | server/room.ts:536-553 | in the other modes the current video is dropped, and playing stops exactly when nothing is queued |
| QueueModes.LoopRotates | server/room.ts:514-568 | the first k advances in loop mode move the first k videos, trimmed, behind the others |
| QueueModes.LoopTurns | server/room.ts:514-568 | n + 1 advances restore the current video and the whole queue up to cleared trims |
| QueueModes.ItemsConserved | server/room.ts:514-568 | any number of advances in loop or disc-jockey mode keeps the multiset of videos up to trims |
| QueueModes.PlaysInOrder | server/room.ts:536-553 | in the other modes the room plays its queue in order, once, and then stops |
| QueueModes.UpdateSortsByVotes | server/room.ts:768-779 | a tick in vote mode leaves the one stable order by votes and marks exactly when it moved something |
| QueueModes.UpdateAgain | server/room.ts:768-779 | a second tick with the same votes changes and marks nothing |
| QueueModes.UpdateAdvances | server/room.ts:737-779 | a tick advances if and only if nothing plays but something is queued, or the video plays and is shown past its given end, or else its length, or else zero; otherwise it only reorders, and only in vote mode |
| QueueModes.UpdateStartsPlaying | server/room.ts:742-758 | after a tick nothing waits in the queue while nothing plays |
| UndoRequests.UndoRemoval | server/room.ts:1429-1440 | undoing a removal restores the queue exactly, also after later additions |
| UndoRequests.UndoAddition | server/room.ts:1418-1428 | undoing an addition, with any later additions behind it, leaves the queue as it would be without it if and only if the found video has the id asked for |
| UndoRequests.UndoAdditionThatPlays | server/room.ts:1418-1428 | undoing an addition that already started in an empty room empties it again |
| UndoRequests.UndoListAddition | server/room.ts:1418-1428 | undoing a list addition drops the current video and leaves the whole list queued |
| UndoRequests.UndoAdditionAfterVotes | server/room.ts:768-779 | after any number of ticks that advance nothing, undoing an addition gives the queue as it would be without it if and only if the found video has the id asked for; otherwise it is refused |
| UndoRequests.UndoSkip | server/room.ts:1409-1417 | undoing a skip restores current video and queue if and only if the mode is manual or vote and the position was not zero (or the queue began with that same video) |
| UndoRequests.UndoSkipPlayback | server/room.ts:1409-1417 | what an undone skip leaves changed: speed 1, paused if the queue ran out, and a position that is off by the time since the skip |
| UndoRequests.UndoSeek | server/room.ts:1398-1408 | undoing a seek goes back if and only if the old position was not zero, or the room was sought to before zero and has just played the distance |
| QueueUniqueness.InQueueMeansCounted | server/room.ts:945-954 | the room's membership test is right about current video and queue together |
| QueueUniqueness.AdvancingKeepsUnique | server/room.ts:514-568 | advancing, ticking and skipping never put a video in the room twice |
| QueueUniqueness.RemovingTimes | server/room.ts:1310-1321 | a removal takes away exactly one occurrence of the video asked for |
| QueueUniqueness.ReorderingTimes | server/room.ts:1323-1325 | reordering changes no video's count |
| QueueUniqueness.EditingTimes | server/room.ts:1295-1308 | editing an item changes no video's count |
| QueueUniqueness.AddingKeepsUnique | server/room.ts:1233-1270 | an addition keeps videos unique if and only if the found id is not in the room, whatever the id asked for |
| QueueUniqueness.AddingManyKeepsUnique | server/room.ts:1271-1288 | a list addition keeps videos unique if and only if no new video is in the list twice |
| QueueUniqueness.PlayingNowTimes | server/room.ts:1666-1710 | playing at once keeps every video and adds only one that was not queued |
| QueueUniqueness.RefusedSubtitleLosesVideo | server/room.ts:1689-1699 | playing a queued video at once loses it if and only if its subtitle is refused |
| QueueRuns.UndoUniqueExactly | server/room.ts:1395-1444 | an undo keeps every video at most once if and only if it brings back a video that is not there, or brings none back while nothing plays |
| QueueRuns.RestoreUniqueExactly | server/room.ts:1725-1741 | restoring the previous queue does if and only if it repeats no video and none is in the room |
| QueueRuns.PlayNowUniqueExactly | server/room.ts:1666-1710 | playing at once does if and only if it is refused, the video is queued, or the found one is not in the room |
| QueueRuns.OpUniqueExactly | server/room.ts:514-1741 | each request, update, undo and restore keeps every video in the room at most once if and only if its guard holds |
| QueueRuns.HistoryUniqueExactly | server/room.ts:514-1741 | in every history of them no video is in the room twice at any point if and only if every operation is guarded |
| QueueRuns.UndoneSkipRepeats | server/room.ts:1409-1417 | a skip at position zero that is undone puts the video that plays into the queue as well |
| RoomVotes.VoteMeaning | server/room.ts:1446-1468 | a vote adds or withdraws exactly that client for exactly the videos with that key |
| RoomVotes.VoteCountsOnce | server/room.ts:1446-1468 | the count that orders the queue changes by one exactly when a vote is new or withdrawn |
| RoomVotes.VotingAgainChangesNothing | server/room.ts:1446-1468 | the same vote again changes no votes |
| RoomVotes.LeavingWithdrawsVotes | server/room.ts:1342-1362 | a client that left has no votes if and only if the room is in vote mode or it had none; nobody else's votes change |
| RoomVotes.LeavingLowersSkipVotes | server/room.ts:1342-1354 | a client that left does not count when another asks for a skip, and leaving itself never skips |
| RoomVotes.SkipNeedsHalf | server/room.ts:1158-1186 | a skip goes through exactly when it is not voted on or at least half of the eligible clients want it |
| RoomVotes.SkipVotesStartOver | server/room.ts:1158-1196 | after a voted skip the votes start over; a vote that does not suffice changes only the votes and can be taken back |
| RoomReload.UnloadWrites | server/room.ts:918-937 | an unload writes nothing if and only if the room is temporary; else the current video, to be resumed, in front of the queue |
| RoomReload.LoadedIsIdle | server/room.ts:263-353 | a room from storage has its settings, plays nothing, stands still at zero and has no votes |
| RoomReload.FirstUpdate | server/room.ts:737-758 | the first tick of a waiting room plays its first video where it is to start, in every mode |
| RoomReload.ReloadResumes | server/room.ts:918-937 | unloading a room and loading it again loses nothing: the same video at the same position in front of the same queue |
| RoomReload.ReloadEmpty | server/room.ts:297-312 | a loaded room has nothing to restore if and only if it was idle or never restores |
| RoomReload.Interrupted | server/room.ts:1666-1710 | playing at once starts the new video at zero and puts the old one, resumable, on top of the queue in its order |
| RoomReload.InterruptionResumes | server/room.ts:1666-1710 | a skip of the interrupting video that passes resumes the interrupted one where it was |
| RoomEffects.TrimmedPlaysWhole | server/room.ts:509-512 | a trimmed item has neither start nor end, and is otherwise the same |
| RoomEffects.VotesSharedExactly | server/room.ts:768-779 | two videos share their votes if and only if one service is the other plus some text and that text begins the other's id |
| RoomEffects.OneServiceKeepsVotesApart | server/room.ts:1446-1468 | different videos of one service never share votes |
| RoomEffects.AdvanceClock | server/room.ts:514-568 | the clock after an advance in every mode: what position, whether it plays, and at which speed |
| RoomEffects.AdvanceShows | server/room.ts:514-568 | what an advance starts is shown at its start |
| RoomEffects.AdvanceLeavesRest | server/room.ts:514-568 | an advance forgets the votes to skip where there are any, and the segments unless the same video starts over, and leaves settings, votes and the stored queue |
| RoomEffects.SubtitlesAccepted | server/room.ts:1254-1261 | adding takes a subtitle that is missing, empty, vtt or ends in .vtt; editing only the last |
| RoomEffects.AddingExactly | server/room.ts:1233-1270 | an addition is accepted if and only if the video asked for is not there and its subtitle is one; then it is last and nothing is left to restore, else nothing changes |
| RoomEffects.AddedItem | server/room.ts:1246-1262 | what is added is what was found, with the subtitle unless that is empty |
| RoomEffects.InQueueExactly | server/room.ts:945-954 | a video counts as in the room if and only if it plays or is queued |
| RoomEffects.NewOnesInOrder | server/room.ts:1276-1284 | what is new of a list keeps its order |
| RoomEffects.NewOne | server/room.ts:1276-1284 | a video of a list is new if and only if it is not in the room |
| RoomEffects.AddingManyExactly | server/room.ts:1271-1288 | a list is accepted if and only if something in it is new, appends its new ones, and keeps what there is to restore |
| RoomEffects.ReorderingExactly | server/room.ts:1323-1325 | a move within bounds puts the item there and keeps the order of the others; onto itself it does nothing; else it is refused |
| RoomEffects.EditingExactly | server/room.ts:1295-1308 | an edit is accepted if and only if the video is queued and a given subtitle ends in .vtt, and touches only the first match |
| RoomEffects.EditedItem | server/room.ts:1295-1308 | an edited item has the given fields and keeps the others |
| RoomEffects.PlayNowRefused | server/room.ts:1666-1687 | playing at once does nothing for the video that plays, and is denied without the permission |
| RoomEffects.PlayNowStarts | server/room.ts:1666-1710 | played at once, the queued or the found video plays from zero at the room's speed, the rest of the queue stays in order |
| RoomEffects.RestoringExactly | server/room.ts:1725-1741 | restoring appends the stored queue once, or discards it |
| RoomEffects.ToggledExactly | server/room.ts:1158-1174 | asking for a skip changes the mind of the one who asks only |
| RoomEffects.SkippingExactly | server/room.ts:1158-1196 | a skip that passes advances as the end of a video does and forgets the segments; one that does not leaves videos and clock |
| RoomEffects.AdvanceItems | server/room.ts:514-568 | what is left in playing order after an advance in every mode, and that its first video plays |
| RoomEffects.LeavingTouchesVotesOnly | server/room.ts:1342-1370 | a leave changes nothing but votes and votes to skip |
| RoomEffects.RefusedUndoChangesNothing | server/room.ts:1395-1444 | which undos are denied or out of bounds, and that a refused one changes nothing |
| Rooms.Room.constructor | server/room.ts:263-353 | takes over the previous queue exactly when it starts empty and always restores; forgets it when it never restores |
| Rooms.Room.SetPrevQueue | server/room.ts:467-473 | clearing what is clear already marks nothing |
| Rooms.Room.RealPlaybackPosition | server/room.ts:721-727 | the position the lazy clock shows |
| Rooms.Room.FlushPlaybackPosition | server/room.ts:973-979 | stores the shown position and restarts the clock |
| Rooms.Room.Play | server/room.ts:1125-1133 | starts the clock unless it runs |
| Rooms.Room.Pause | server/room.ts:1135-1144 | flushes and stops the clock unless it stands |
| Rooms.Room.SeekRaw | server/room.ts:1201-1207 | sets the position and restarts the clock |
| Rooms.Room.SetPlaybackSpeed | server/room.ts:1717-1723 | flushes before the speed changes |
| Rooms.Room.DequeueNext | server/room.ts:514-568 | implements the advance of all four queue modes |
| Rooms.Room.Update | server/room.ts:737-779 | implements the periodic tick: advance if due, then order by votes |
| Rooms.Room.IsVideoInQueue | server/room.ts:945-954 | whether the video is playing or queued |
| Rooms.Room.AddToQueue | server/room.ts:1233-1270 | refuses a queued video and a bad subtitle unchanged; otherwise appends and clears the previous queue |
| Rooms.Room.WithoutQueued | server/room.ts:1276-1284 | the splicing loop keeps exactly the videos not in the room, in order |
| Rooms.Room.AddManyToQueue | server/room.ts:1271-1290 | appends the new ones of a list, or refuses when there are none |
| Rooms.Room.UpdateQueueItem | server/room.ts:1295-1308 | patches a queued item unless the subtitle is refused or the item missing |
| Rooms.Room.RemoveFromQueue | server/room.ts:1310-1321 | removes the first match and announces item and index for the undo |
| Rooms.Room.ReorderQueue | server/room.ts:1323-1325 | moves one item or refuses |
| Rooms.Room.PlayNow | server/room.ts:1666-1710 | plays a video at once, putting the current one, resumable, on top of the queue |
| Rooms.Room.RestoreQueue | server/room.ts:1725-1741 | appends or discards the previous queue, once |
| Rooms.Room.Skip | server/room.ts:1158-1196 | toggles the voter, skips when the threshold is met, and announces what the undo needs |
| Rooms.Room.CastVote | server/room.ts:1446-1468 | adds or withdraws one vote |
| Rooms.Room.RemoveVotes | server/room.ts:1355-1362 | withdraws all votes of a client and says whether there were any |
| Rooms.Room.LeaveRoom | server/room.ts:1342-1370 | withdraws a leaving client's skip vote and, in vote mode, its votes |
| Rooms.Room.Undo | server/room.ts:1395-1444 | implements the four undoable requests, with the refusals of the requests they turn into |
| Rooms.Room.Shuffle | server/room.ts:1712-1715 | reorders without marking |
| Rooms.Room.OnBeforeUnload | server/room.ts:918-937 | writes the current video, resumable, in front of the queue as the previous queue, unless the room is temporary |
| Rooms.Room.Sync | server/room.ts:860-905 | sends exactly the dirty properties, or nothing, and cleans room and queue |
| DeltaSync.Store.Sync | client/src/stores/room.ts:67-141 | the chain of tests takes exactly the properties the client handles, makes a new grants object from the masks, and merges them over its state; a message with a role there is not changes nothing |
| DeltaSync.PerformsPlayback | server/room.ts:514-1741 | a run's clock requests, updates, skips, undos and restores are those that the room object implements |
| DeltaSync.PerformsVotes | server/room.ts:1342-1468 | so are its votes and leaves |
| DeltaSync.PerformsEdits | server/room.ts:1271-1325 | so are its list additions, removals, moves and edits |
| DeltaSync.PerformsAdditions | server/room.ts:1233-1710 | so are its additions and its playing at once |
| DeltaSync.OpMarks | server/room.ts:355-502 | every operation but a shuffle marks every tracked property that it changes |
| DeltaSync.JumpsAreTold | server/room.ts:427-434 | whatever makes the shown position jump marks it to be sent |
| DeltaSync.ShuffleChangesQueueOnly | server/videoqueue.ts:173-177 | a shuffle touches no property but the queue and marks nothing |
| DeltaSync.SyncedCopy | server/room.ts:860-905 | a sync delivers each dirty property as it is and leaves the copy of every other alone |
| DeltaSync.NextKeepsAgreement | server/room.ts:860-905 | one step keeps a tracked property of the copy equal unless dirty, and a sync makes it equal |
| DeltaSync.OpKeepsCopyable | server/room.ts:1642-1650 | nothing that changes a room makes its grants such that a client's object made from them differs |
| DeltaSync.RunKeepsAgreement | server/room.ts:839-905 | at every point of every run each tracked property of the copy is the room's unless it is dirty, and all agree after every sync; the grants when they are good at the start, the queue when every shuffle is guarded |
| DeltaSync.RunKeepsQueueExactly | server/room.ts:839-905 | in every run the copied queue is right at every point unless dirty if and only if every shuffle moves nothing or finds the queue dirty |
| DeltaSync.JoinAgrees | server/clientmanager.ts:138-143 | a joining client's copy agrees at once |
| DeltaSync.GrantsAgreeExactly | client/src/stores/room.ts:132-134 | a joining client has the room's grants if and only if they are good |
| DeltaSync.ShuffleIsNotSynced | server/videoqueue.ts:173-177 | after a shuffle and a sync the copied queue is right if and only if nothing moved or the queue was dirty anyway |
| DeltaSync.DirtySyncHeals | server/room.ts:860-905 | a sync of a dirty property makes the copy right whatever it was |
| SyncedFields.MirrorsExactly | server/room.ts:839-844 | what is sent for each property is that property of the room, the position the one shown at that time, the vote counts the numbers of voters |
| SyncedFields.MessageMirrors | server/room.ts:860-877 | a message has exactly the dirty properties, each as the room has it at that time |
| SyncedFields.FullStateMirrors | server/room.ts:839-844 | the full state has every property as the room has it |
| SyncedFields.SentOnce | server/room.ts:904-904 | after a message nothing is dirty and nothing else of the room is different |
| SyncedFields.HandledExactly | client/src/stores/room.ts:67-138 | the client takes every property but two |
| SyncedFields.OthersStay | client/src/stores/room.ts:67-141 | what is not sent or not handled stays in the copy as it was |
| SyncedFields.SyncMirrors | server/room.ts:860-905 | after a sync the copy has every dirty property, the shown position included, as the room has it |
| SyncedFields.JoinMirrors | server/clientmanager.ts:138-143 | a joining client has every property that it handles as the room has it |
| SyncedFields.RunMirrors | server/room.ts:839-905 | at every point of every run the copy has each tracked property as the room has it unless it is dirty, and after every sync it has |
| SyncedFields.SettingsTakeEffect | server/room.ts:355-502 | a setting becomes what was asked for, no other property changes, and it is due to be sent, except the restore behaviour |
| SyncedFields.GrantsTakeEffect | server/room.ts:1580-1650 | a request for other grants changes the grants only, and makes them due if and only if something of it is carried out |
| SyncedFields.OpMarksAtMost | server/room.ts:355-502 | no request makes a property due that it has nothing to do with |
| SyncedFields.PlayAndPauseMark | server/room.ts:1125-1144 | playing what plays and pausing what is paused change and mark nothing; what they mark otherwise |
| LoadEpochs.EpochCounter.AddRoom | server/roommanager.ts:36-45 | an undisturbed load takes the next epoch and resets the counter exactly when that is large |
| LoadEpochs.NextCounterBounded | server/roommanager.ts:36-45 | each step keeps the counter below the reset point plus the loads that still have to reset it |
| LoadEpochs.RunCounterBounded | server/roommanager.ts:36-45 | so does every interleaving |
| LoadEpochs.EpochsStayBelowPlaceholder | server/roommanager.ts:36-45 | with at most k loads in flight the counter never exceeds 2147483640 + k - 1, so epochs stay below the balancer's placeholder for k < 2^31 |
| LoadEpochs.BoundIsReached | server/roommanager.ts:36-45 | k loads that start together reach the bound |
| LoadEpochs.IssuedInOrder | server/roommanager.ts:38-39 | until a load starts after a reset, the loads get 1, 2, 3 and so on |
| LoadEpochs.EpochsDistinctExactly | server/roommanager.ts:36-45 | over every interleaving, no two loads share an epoch if and only if no load starts after the counter was reset |
| LoadEpochs.LateResetRepeatsEpoch | server/roommanager.ts:40-43 | a slow second reset hands epoch 1 out twice |
| AspectRatio.GcdLoop | client/src/util/misc.ts:11-16 | the loop ends with the greatest common divisor |
| AspectRatio.GcdMeaning | client/src/util/misc.ts:11-16 | it divides both numbers and every common divisor divides it |
| AspectRatio.ReducedIsCoprime | client/src/util/misc.ts:32-33 | the reduced pair has no common divisor and scales back to the size |
| AspectRatio.GetAspectRatio | client/src/util/misc.ts:24-61 | refuses exactly the sizes that are not positive, and classifies the others |
| AspectRatio.LabelsAreExact | client/src/util/misc.ts:37-55 | each label is an exact cross-multiplication of width and height |
| AspectRatio.GetFriendlyResolutionLabel | client/src/util/misc.ts:69-164 | the resolution shown, refused exactly when the classification is |
| AspectRatio.ExactSizes | client/src/util/misc.ts:73-81 | every 16k by 9k and every 9k by 16k track is labelled 9k |
| AspectRatio.LargerSquareSmallerLabel | client/src/util/misc.ts:139-156 | of two squares the larger gets the smaller label if and only if 1440 <= smaller < 1920 <= larger < 3072 |
| AspectRatio.CinematicLabelExactly | client/src/util/misc.ts:90-115 | a cinematic video gets the largest size of its table that a 16:9 video of its width reaches, 4320 from 8192 on only; below 1280 its height |
| AspectRatio.OtherLabelExactly | client/src/util/misc.ts:117-163 | 4:3, square and custom sizes: by width from 3072 on, with all large 4:3 at 4320; below that by height, with 1920 by 1440 and more at 1080 |
| AspectRatio.SideLabelExactly | client/src/util/misc.ts:73-88 | widescreen and ultrawide are labelled by height, vertical by width |
| AspectRatio.LabelRange | client/src/util/misc.ts:69-164 | a label is a size of the table or a side of the video |

## Left out

- Tokio channels, websockets, TLS, HTTP proxying, discovery, metrics and logs: sends append to a
  monolith's outbox or fail.
- JSON text, Redis and Sequelize themselves: only the lists and rows that are exchanged.
- The hash-ring and min-rooms selectors: selection is any member of the filtered list.
- The room messages and kicks that the balancer passes on to clients: they change no shared state.
- `BalancerContext::add_client` and `BalancerContext::remove_client`: older forms of a join and a
  leave that no path of the server uses.
- A gossip whose sender is gone when it starts: the task panics on an `unwrap` before it changes
  anything.
- Sponsorblock: fetched segments are an arbitrary setter, and skipping a segment is a seek of the
  clock; `wantSponsorBlock` and `dontSkipSegmentsUntil` are not modelled.
- Users of a room, tokens, sessions, promotion and kicking; permission checks of requests are
  boolean arguments, or, for most requests, assumed to have passed.
- Settings requests: each setter is an operation, and the comparison with the old settings before is
  modelled for the grants only.
- `Room.setGrants` (server/room.ts:1120-1123): nothing calls it.
- The storage of a room other than its grants, user roles and previous queue.
- `restoreQueueBehavior` and `autoSkipSegmentCategories` in the clients' copies: the client ignores
  both. `playbackPosition` varies with time; that every jump of it is sent is proved instead.
- Null items in the queue, and index checks made before the queue's lock is taken.
- In-place sharing of items: `Object.assign` on a queued item and on the current one also changes
  other references to the same object; items are values here.
- Binary rounding of quotients and clock values.
- Epoch order across a counter reset: the rule compares numbers only, and nothing is claimed about
  which instance is older past a reset.
- The sign of the program's 32-bit masks: bit 31 is never used, so it plays no role.
