/** What each locked section does to every monolith, room, list and locator, and which sections undo
    each other. */
module BalancerSections {
  import opened Options
  import opened RoomNames
  import opened BalancerState
  import opened BalancerInvariants
  import opened LoadConflicts

  // ---------------------------------------------------------------- what can be seen of a state

  /** The room on that monolith: there or not, with the same list and metadata. */
  ghost predicate SameRoomOn(s: State, t: State, id: MonolithId, r: RoomName) {
    && (Holds(t, id, r) <==> Holds(s, id, r))
    && (Holds(s, id, r) ==> t.monoliths[id].rooms[r] == s.monoliths[id].rooms[r])
  }

  ghost predicate SameLocator(s: State, t: State, r: RoomName) {
    && (r in t.locators <==> r in s.locators)
    && (r in s.locators ==> t.locators[r] == s.locators[r])
  }

  /** Nothing differs but this room on this monolith, the room's locator, and the clients. */
  ghost predicate OnlyRoomMoved(s: State, t: State, id: MonolithId, r: RoomName) {
    && SameMonoliths(s, t)
    && (forall k, q :: k != id || q != r ==> SameRoomOn(s, t, k, q))
    && (forall q :: q != r ==> SameLocator(s, t, q))
  }

  function ClientsOn(s: State, id: MonolithId, r: RoomName): seq<ClientId> {
    if id in s.monoliths && r in s.monoliths[id].rooms then s.monoliths[id].rooms[r].clients else []
  }

  function RegionList(s: State, region: Region): seq<MonolithId> {
    if region in s.regions then s.regions[region] else []
  }

  // ---------------------------------------------------------------- beginning a join

  /** A room that is loaded is joined where it is, whatever selection would answer. */
  lemma BeginJoinReuses(s: State, r: RoomName, choice: Option<MonolithId>)
    requires r in s.locators && Holds(s, s.locators[r].monolith, r)
    ensures BeginJoin(s, r, choice) == (s, Started(s.locators[r].monolith, false))
  {
  }

  /** A room that is not loaded is placed, empty, on the selected monolith, as a room that nobody
      reported yet. */
  lemma BeginJoinCreates(s: State, r: RoomName, id: MonolithId)
    requires r !in s.locators && id in s.monoliths && !Holds(s, id, r)
    ensures var (t, start) := BeginJoin(s, r, Some(id));
            && start == Started(id, true)
            && LocatedOn(t, r, id) && Unreported(t, r) && OwnerThere(t, r)
            && Holds(t, id, r) && t.monoliths[id].rooms[r] == Room([], None)
            && t.clients == s.clients && OnlyRoomMoved(s, t, id, r)
  {
  }

  /** A join starts exactly if the room is loaded where its locator says, or is located nowhere and a
      registered monolith without it was selected; otherwise no room and no client moves. A selected
      monolith that has the room although it is not located gets a locator first. */
  lemma BeginJoinStartsExactly(s: State, r: RoomName, choice: Option<MonolithId>)
    ensures BeginJoin(s, r, choice).1.Started? <==>
            if r in s.locators then Holds(s, s.locators[r].monolith, r)
            else choice.Some? && choice.value in s.monoliths && !Holds(s, choice.value, r)
    ensures BeginJoin(s, r, choice).1.Refused? <==>
            r !in s.locators &&
            (choice.None? || choice.value !in s.monoliths || Holds(s, choice.value, r))
    ensures !BeginJoin(s, r, choice).1.Started? ==>
              && BeginJoin(s, r, choice).0.monoliths == s.monoliths
              && (r in s.locators || choice.None? || choice.value !in s.monoliths ==> BeginJoin(s, r, choice).0 == s)
              && (r !in s.locators && choice.Some? && Holds(s, choice.value, r) ==>
                    LocatedOn(BeginJoin(s, r, choice).0, r, choice.value) && Unreported(BeginJoin(s, r, choice).0, r))
              && forall q :: q != r ==> SameLocator(s, BeginJoin(s, r, choice).0, q)
  {
  }

  /** The room that a join created goes to the oldest of those that report it, like one that nobody
      had asked for. */
  lemma JoinedRoomGoesToOldest(s: State, r: RoomName, id: MonolithId, claims: seq<Claim>)
    requires r !in s.locators && id in s.monoliths && !Holds(s, id, r)
    requires claims != [] && Genuine(s, claims) && OneEpochEach(claims)
    ensures exists i :: Leads(claims, i) &&
                        Owner(BeginJoin(s, r, Some(id)).0, r, claims) == Some(LocatorOf(claims[i]))
  {
    BeginJoinCreates(s, r, id);
    OldestClaimWins(BeginJoin(s, r, Some(id)).0, r, claims);
  }

  // ---------------------------------------------------------------- ending a join

  /** Committing a join appends the client to that one list and registers it, and does nothing else. */
  lemma CommitJoinLists(s: State, c: ClientId, r: RoomName, id: MonolithId)
    requires id in s.monoliths
    ensures var (t, ok) := CommitJoin(s, c, r, id);
            && ok && Listed(t, id, r, c) && c in t.clients && t.clients[c] == r
            && ClientsOn(t, id, r) == ClientsOn(s, id, r) + [c]
            && t.monoliths[id].rooms[r].metadata ==
               (if Holds(s, id, r) then s.monoliths[id].rooms[r].metadata else None)
            && OnlyRoomMoved(s, t, id, r) && SameLocator(s, t, r)
            && t.clients - {c} == s.clients - {c}
  {
  }

  lemma CommitJoinFails(s: State, c: ClientId, r: RoomName, id: MonolithId)
    ensures CommitJoin(s, c, r, id) == (s, false) <==> id !in s.monoliths
  {
  }

  /** Taking back a join that was not delivered gives back the state before it began; if the channel
      failed, the same without the monolith. */
  lemma JoinIsTakenBack(s: State, r: RoomName, choice: Option<MonolithId>)
    requires BeginJoin(s, r, choice).1.Started?
    ensures var (t, start) := BeginJoin(s, r, choice);
            && RollBackJoin(t, r, start.monolith, start.created) == s
            && AbortJoin(t, r, start.monolith, start.created) == RemoveMonolith(s, start.monolith)
  {
    var (t, start) := BeginJoin(s, r, choice);
    var u := RollBackJoin(t, r, start.monolith, start.created);
    if start.created {
      assert u.monoliths[start.monolith].rooms == s.monoliths[start.monolith].rooms;
      assert u.monoliths == s.monoliths;
      assert u.locators == s.locators;
    }
  }

  // ---------------------------------------------------------------- leaving

  lemma {:induction false} WithoutAbsent(list: seq<nat>, x: nat)
    requires x !in list
    ensures Without(list, x) == list
  {
    if list != [] {
      WithoutAbsent(list[1..], x);
    }
  }

  /** Taking out an id that is there once keeps the order of the others. */
  lemma {:induction false} WithoutCuts(front: seq<nat>, x: nat, back: seq<nat>)
    requires x !in front && x !in back
    ensures Without(front + [x] + back, x) == front + back
  {
    if front == [] {
      assert ([x] + back)[1..] == back;
      assert front + [x] + back == [x] + back;
      WithoutAbsent(back, x);
    } else {
      assert (front + [x] + back)[1..] == front[1..] + [x] + back;
      WithoutCuts(front[1..], x, back);
      assert front + back == [front[0]] + (front[1..] + back);
    }
  }

  /** A leave takes the client off the lists of the monolith on which its room is located, and nobody
      else off any list; every locator stays. */
  lemma BeginLeaveUnlists(s: State, c: ClientId, k: MonolithId, q: RoomName, d: ClientId)
    ensures var t := BeginLeave(s, c).0;
            && SameMonoliths(s, t) && t.locators == s.locators && t.clients == s.clients - {c}
            && (Holds(t, k, q) <==> Holds(s, k, q))
            && (Listed(t, k, q, d) <==>
                Listed(s, k, q, d) && !(d == c && c in s.clients && LocatedOn(s, s.clients[c], k)))
            && (Holds(s, k, q) && !Listed(s, k, q, c) ==> SameRoomOn(s, t, k, q))
            && (Holds(s, k, q) ==> t.monoliths[k].rooms[q].metadata == s.monoliths[k].rooms[q].metadata)
  {
    if Holds(s, k, q) && !Listed(s, k, q, c) {
      WithoutAbsent(s.monoliths[k].rooms[q].clients, c);
    }
  }

  /** A join that is committed where its room is located, and then left, leaves all lists as they
      were. */
  lemma LeaveUndoesCommit(s: State, c: ClientId, r: RoomName, id: MonolithId)
    requires Placed(s) && c !in s.clients && Holds(s, id, r) && LocatedOn(s, r, id)
    ensures BeginLeave(CommitJoin(s, c, r, id).0, c) == (s, Notify(id))
  {
    var t := CommitJoin(s, c, r, id).0;
    var u := BeginLeave(t, c).0;
    forall q | Holds(s, id, q)
      ensures u.monoliths[id].rooms[q] == s.monoliths[id].rooms[q]
    {
      var list := s.monoliths[id].rooms[q].clients;
      assert c !in list by {
        if c in list { assert Listed(s, id, q, c); }
      }
      WithoutAbsent(list, c);
      if q == r {
        WithoutCuts(list, c, []);
        assert list + [c] + [] == list + [c] && list + [] == list;
      }
    }
    assert u.monoliths[id].rooms == s.monoliths[id].rooms;
    assert u.monoliths == s.monoliths;
    assert u.clients == s.clients;
  }

  // ---------------------------------------------------------------- monoliths and rooms

  /** A new monolith has no rooms and comes last in its region; nothing else changes. */
  lemma AddMonolithAddsOnly(s: State, id: MonolithId, region: Region, g: Region)
    requires id !in s.monoliths
    ensures var t := AddMonolith(s, id, region);
            && t.monoliths.Keys == s.monoliths.Keys + {id} && t.monoliths[id] == Monolith(region, map[])
            && (forall k :: k in s.monoliths ==> t.monoliths[k] == s.monoliths[k])
            && t.locators == s.locators && t.clients == s.clients
            && RegionList(t, g) == RegionList(s, g) + if g == region then [id] else []
  {
  }

  /** Removing a monolith forgets it, the locators that name it and the clients whose rooms are
      located nowhere else; everything else stays. */
  lemma RemoveMonolithForgets(s: State, id: MonolithId, k: MonolithId, r: RoomName, c: ClientId)
    ensures var t := RemoveMonolith(s, id);
            && t.monoliths == s.monoliths - {id}
            && (LocatedOn(t, r, k) <==> LocatedOn(s, r, k) && k != id)
            && (LocatedOn(t, r, k) ==> SameLocator(s, t, r))
            && (c in t.clients <==>
                c in s.clients && s.clients[c] in s.locators && s.locators[s.clients[c]].monolith != id)
            && (c in t.clients ==> t.clients[c] == s.clients[c])
  {
  }

  /** The region's list loses the id, and keeps the others in their order. */
  lemma RemoveMonolithUnlists(s: State, id: MonolithId, g: Region, front: seq<MonolithId>, back: seq<MonolithId>)
    requires IndexAgrees(s)
    ensures id in RegionList(s, g) && RegionList(s, g) == front + [id] + back ==>
              RegionList(RemoveMonolith(s, id), g) == front + back
    ensures id !in RegionList(s, g) ==> RegionList(RemoveMonolith(s, id), g) == RegionList(s, g)
  {
    if id in RegionList(s, g) && RegionList(s, g) == front + [id] + back {
      var list := s.regions[g];
      assert list[|front|] == id;
      assert forall i :: 0 <= i < |front| ==> list[i] == front[i];
      assert forall i :: 0 <= i < |back| ==> list[|front| + 1 + i] == back[i];
      WithoutCuts(front, id, back);
    }
  }

  /** Dropping a room takes just that room off that monolith, and its locator if it names it. */
  lemma RemoveRoomDropsOnly(s: State, r: RoomName, id: MonolithId)
    ensures var t := RemoveRoom(s, r, id);
            && !Holds(t, id, r) && OnlyRoomMoved(s, t, id, r) && t.clients == s.clients
            && (if id in s.monoliths && LocatedOn(s, r, id) then r !in t.locators else SameLocator(s, t, r))
  {
  }

  // ---------------------------------------------------------------- reports

  /** A report that is settled for its sender leaves the room on the sender, with the reported
      metadata and the clients that were listed there, and takes it off the monolith that had it; any
      other report by a registered monolith changes nothing. */
  lemma ReportRecords(s: State, r: RoomName, md: Metadata, id: MonolithId, e: Epoch)
    requires id in s.monoliths
    ensures var (t, verdict) := Report(s, r, md, id, e);
            && (!verdict.Accepted? && !verdict.Replaced? ==> t == s)
            && (verdict.Accepted? || verdict.Replaced? ==>
                  && Holds(t, id, r) && t.monoliths[id].rooms[r] == Room(ClientsOn(s, id, r), Some(md))
                  && t.locators == s.locators[r := RoomLocator(id, e)]
                  && t.clients == s.clients && SameMonoliths(s, t)
                  && forall k, q :: k != id || q != r ==>
                       if verdict == Replaced(k) && q == r then !Holds(t, k, q) else SameRoomOn(s, t, k, q))
  {
  }

  /** What the locked form leaves of a report that is not safe: no locator is written for the unknown
      sender, but the instance that it would have replaced is gone. */
  lemma LockedReportOfUnknown(s: State, r: RoomName, md: Metadata, id: MonolithId, e: Epoch)
    requires LocatorsSound(s) && !ReportSafe(s, r, id, e)
    ensures var t := ReportUnderLock(s, r, md, id, e).0;
            && (forall k :: !LocatedOn(t, r, k))
            && (forall k :: Holds(t, k, r) <==> Holds(s, k, r) && !LocatedOn(s, r, k))
            && (forall q :: q != r ==> SameLocator(s, t, q)) && t.clients == s.clients
            && forall k, q :: q != r ==> SameRoomOn(s, t, k, q)
  {
  }
}
