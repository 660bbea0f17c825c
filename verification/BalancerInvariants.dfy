/** What holds between the balancer's four maps, and exactly which locked sections keep it. */
module BalancerInvariants {
  import opened Options
  import opened RoomNames
  import opened BalancerState

  /** The monolith is registered and has the room. */
  ghost predicate Holds(s: State, id: MonolithId, r: RoomName) {
    id in s.monoliths && r in s.monoliths[id].rooms
  }

  ghost predicate LocatedOn(s: State, r: RoomName, id: MonolithId) {
    r in s.locators && s.locators[r].monolith == id
  }

  /** Every locator names a registered monolith that has the room. */
  ghost predicate LocatorsSound(s: State) {
    forall r :: r in s.locators ==> Holds(s, s.locators[r].monolith, r)
  }

  /** Every room a monolith has is located on that monolith. */
  ghost predicate TablesSound(s: State) {
    forall id, r :: Holds(s, id, r) ==> LocatedOn(s, r, id)
  }

  ghost predicate Coupled(s: State) {
    LocatorsSound(s) && TablesSound(s)
  }

  /** The client is on the room's list of that monolith. */
  ghost predicate Listed(s: State, id: MonolithId, r: RoomName, c: ClientId) {
    Holds(s, id, r) && c in s.monoliths[id].rooms[r].clients
  }

  /** A client on a room's list is registered with that room, and is there once. */
  ghost predicate Placed(s: State) {
    && (forall id, r, c :: Listed(s, id, r, c) ==> c in s.clients && s.clients[c] == r)
    && (forall id, r :: Holds(s, id, r) ==> NoDuplicates(s.monoliths[id].rooms[r].clients))
  }

  /** Each region's list holds, once each, the registered monoliths of that region. */
  ghost predicate IndexAgrees(s: State) {
    && (forall id :: id in s.monoliths ==>
          s.monoliths[id].region in s.regions && id in s.regions[s.monoliths[id].region])
    && (forall g, id :: g in s.regions && id in s.regions[g] ==>
          id in s.monoliths && s.monoliths[id].region == g)
    && (forall g :: g in s.regions ==> NoDuplicates(s.regions[g]))
  }

  // ---------------------------------------------------------------- coupling

  /** The coupling says precisely that the map sends a room to a monolith exactly when the
      monolith is registered and has the room; so no room is on two monoliths. */
  lemma CoupledMeansExactMap(s: State)
    ensures Coupled(s) <==> forall id, r :: Holds(s, id, r) <==> LocatedOn(s, r, id)
    ensures Coupled(s) ==> forall i, j, r :: Holds(s, i, r) && Holds(s, j, r) ==> i == j
  {
    if forall id, r :: Holds(s, id, r) <==> LocatedOn(s, r, id) {
      forall r | r in s.locators
        ensures Holds(s, s.locators[r].monolith, r)
      {
        assert LocatedOn(s, r, s.locators[r].monolith);
      }
    }
  }

  lemma AddMonolithKeepsCoupling(s: State, id: MonolithId, region: Region)
    requires id !in s.monoliths
    ensures LocatorsSound(s) ==> LocatorsSound(AddMonolith(s, id, region))
    ensures TablesSound(s) ==> TablesSound(AddMonolith(s, id, region))
  {
    var t := AddMonolith(s, id, region);
    assert forall i, q :: Holds(t, i, q) ==> Holds(s, i, q);
  }

  lemma RemoveMonolithKeepsCoupling(s: State, id: MonolithId)
    ensures LocatorsSound(s) ==> LocatorsSound(RemoveMonolith(s, id))
    ensures TablesSound(s) ==> TablesSound(RemoveMonolith(s, id))
  {
    var t := RemoveMonolith(s, id);
    assert forall i, q :: Holds(t, i, q) ==> Holds(s, i, q) && i != id;
  }

  lemma RemoveRoomKeepsCoupling(s: State, r: RoomName, id: MonolithId)
    ensures LocatorsSound(s) ==> LocatorsSound(RemoveRoom(s, r, id))
    ensures TablesSound(s) ==> TablesSound(RemoveRoom(s, r, id))
  {
    var t := RemoveRoom(s, r, id);
    assert forall i, q :: Holds(t, i, q) ==> Holds(s, i, q) && (t == s || i != id || q != r);
  }

  lemma BeginJoinKeepsCoupling(s: State, r: RoomName, choice: Option<MonolithId>)
    ensures LocatorsSound(s) ==> LocatorsSound(BeginJoin(s, r, choice).0)
    ensures TablesSound(s) ==> TablesSound(BeginJoin(s, r, choice).0)
  {
    var t := BeginJoin(s, r, choice).0;
    assert forall i, q :: Holds(t, i, q) ==> Holds(s, i, q) || LocatedOn(t, q, i);
    assert forall q, i :: LocatedOn(s, q, i) ==> LocatedOn(t, q, i);
  }

  lemma BeginLeaveKeepsCoupling(s: State, c: ClientId)
    ensures LocatorsSound(s) ==> LocatorsSound(BeginLeave(s, c).0)
    ensures TablesSound(s) ==> TablesSound(BeginLeave(s, c).0)
  {
    var t := BeginLeave(s, c).0;
    assert forall i, q :: Holds(t, i, q) <==> Holds(s, i, q);
  }

  /** A report can be settled without breaking the locators: the reporter is registered, or
      the report loses against an instance located elsewhere. */
  predicate ReportSafe(s: State, r: RoomName, id: MonolithId, e: Epoch) {
    id in s.monoliths || (r in s.locators && s.locators[r].monolith != id && s.locators[r].epoch <= e)
  }

  /** The locator is written before the reporter is looked up, so a report keeps the locators
      sound exactly when `ReportSafe` holds; the tables stay sound in any case. */
  lemma ReportKeepsCoupling(s: State, r: RoomName, md: Metadata, id: MonolithId, e: Epoch)
    ensures LocatorsSound(s) ==> (LocatorsSound(Report(s, r, md, id, e).0) <==> ReportSafe(s, r, id, e))
    ensures TablesSound(s) ==> TablesSound(Report(s, r, md, id, e).0)
  {
    if r !in s.locators || s.locators[r].monolith == id {
      LocateKeepsCoupling(s, r, md, id, e);
    } else if s.locators[r].epoch > e && s.locators[r].monolith in s.monoliths {
      RemoveRoomKeepsCoupling(s, r, s.locators[r].monolith);
      LocateKeepsCoupling(RemoveRoom(s, r, s.locators[r].monolith), r, md, id, e);
    }
  }

  lemma LocateKeepsCoupling(s: State, r: RoomName, md: Metadata, id: MonolithId, e: Epoch)
    requires r in s.locators ==> s.locators[r].monolith == id
    ensures LocatorsSound(s) ==> (LocatorsSound(Locate(s, r, md, id, e)) <==> id in s.monoliths)
    ensures TablesSound(s) ==> TablesSound(Locate(s, r, md, id, e))
  {
    var t := Locate(s, r, md, id, e);
    if id !in s.monoliths {
      assert t.locators[r].monolith == id && !Holds(t, id, r);
    } else {
      assert forall i, q :: Holds(t, i, q) <==> Holds(s, i, q) || (i == id && q == r);
      assert forall q, i :: q != r ==> (LocatedOn(t, q, i) <==> LocatedOn(s, q, i));
    }
    if TablesSound(s) {
      assert forall i, q :: Holds(t, i, q) ==> Holds(s, i, q) || (i == id && q == r);
      assert forall q, i :: LocatedOn(s, q, i) ==> LocatedOn(t, q, i);
    }
  }

  /** The room is still located where the join began (or that monolith is gone). */
  predicate JoinTimely(s: State, r: RoomName, id: MonolithId) {
    id in s.monoliths ==> r in s.locators && s.locators[r].monolith == id
  }

  /** Committing a join creates a room that is not there, so it keeps the tables sound exactly
      when the room has not moved since the join began; the locators stay sound in any case. */
  lemma CommitJoinKeepsCoupling(s: State, c: ClientId, r: RoomName, id: MonolithId)
    ensures TablesSound(s) ==> (TablesSound(CommitJoin(s, c, r, id).0) <==> JoinTimely(s, r, id))
    ensures LocatorsSound(s) ==> LocatorsSound(CommitJoin(s, c, r, id).0)
  {
    var t := CommitJoin(s, c, r, id).0;
    assert forall i, q :: Holds(t, i, q) <==> Holds(s, i, q) || (id in s.monoliths && i == id && q == r);
    if !JoinTimely(s, r, id) {
      assert Holds(t, id, r) && !LocatedOn(t, r, id);
    }
  }

  /** The `unwrap`s of a beginning join fail exactly on a dangling locator. */
  lemma BeginJoinPanicsOnDanglingLocator(s: State, r: RoomName, choice: Option<MonolithId>)
    ensures BeginJoin(s, r, choice).1.Panicked? <==> r in s.locators && !Holds(s, s.locators[r].monolith, r)
    ensures LocatorsSound(s) ==> !BeginJoin(s, r, choice).1.Panicked?
  {
  }

  /** No join of any room panics. */
  ghost predicate PanicFree(s: State) {
    forall r, choice :: !BeginJoin(s, r, choice).1.Panicked?
  }

  lemma PanicFreeMeansSound(s: State)
    ensures PanicFree(s) <==> LocatorsSound(s)
  {
    if PanicFree(s) {
      forall r | r in s.locators
        ensures Holds(s, s.locators[r].monolith, r)
      {
        BeginJoinPanicsOnDanglingLocator(s, r, None);
        assert !BeginJoin(s, r, None).1.Panicked?;
      }
    }
  }

  // ---------------------------------------------------------------- placement

  lemma AddMonolithKeepsPlacement(s: State, id: MonolithId, region: Region)
    requires id !in s.monoliths && Placed(s)
    ensures Placed(AddMonolith(s, id, region))
  {
    var t := AddMonolith(s, id, region);
    assert forall i, q :: Holds(t, i, q) ==> Holds(s, i, q) && t.monoliths[i] == s.monoliths[i];
    forall i, q, c | Listed(t, i, q, c)
      ensures c in t.clients && t.clients[c] == q
    {
      assert Listed(s, i, q, c);
    }
  }

  lemma RemoveMonolithKeepsPlacement(s: State, id: MonolithId)
    requires TablesSound(s) && Placed(s)
    ensures Placed(RemoveMonolith(s, id))
    ensures forall c :: c in RemoveMonolith(s, id).clients ==>
              RemoveMonolith(s, id).clients[c] in RemoveMonolith(s, id).locators
  {
    var t := RemoveMonolith(s, id);
    forall i, r | Holds(t, i, r)
      ensures Holds(s, i, r) && t.monoliths[i] == s.monoliths[i] && r in t.locators
    {
      assert LocatedOn(s, r, i);
    }
    forall i, r, c | Listed(t, i, r, c)
      ensures c in t.clients && t.clients[c] == r
    {
      assert Listed(s, i, r, c);
    }
  }

  lemma RemoveRoomKeepsPlacement(s: State, r: RoomName, id: MonolithId)
    requires Placed(s)
    ensures Placed(RemoveRoom(s, r, id))
  {
    var t := RemoveRoom(s, r, id);
    forall i, q | Holds(t, i, q)
      ensures Holds(s, i, q) && t.monoliths[i].rooms[q] == s.monoliths[i].rooms[q]
    {
    }
    forall i, q, c | Listed(t, i, q, c)
      ensures c in t.clients && t.clients[c] == q
    {
      assert Listed(s, i, q, c);
    }
  }

  lemma LocateKeepsPlacement(s: State, r: RoomName, md: Metadata, id: MonolithId, e: Epoch)
    requires Placed(s)
    ensures Placed(Locate(s, r, md, id, e))
  {
    var t := Locate(s, r, md, id, e);
    forall i, q | Holds(t, i, q)
      ensures t.monoliths[i].rooms[q].clients == if Holds(s, i, q) then s.monoliths[i].rooms[q].clients else []
    {
    }
    forall i, q, c | Listed(t, i, q, c)
      ensures c in t.clients && t.clients[c] == q
    {
      assert Listed(s, i, q, c);
    }
  }

  lemma ReportKeepsPlacement(s: State, r: RoomName, md: Metadata, id: MonolithId, e: Epoch)
    requires Placed(s)
    ensures Placed(Report(s, r, md, id, e).0)
  {
    LocateKeepsPlacement(s, r, md, id, e);
    if r in s.locators {
      RemoveRoomKeepsPlacement(s, r, s.locators[r].monolith);
      LocateKeepsPlacement(RemoveRoom(s, r, s.locators[r].monolith), r, md, id, e);
    }
  }

  lemma BeginJoinKeepsPlacement(s: State, r: RoomName, choice: Option<MonolithId>)
    requires Placed(s)
    ensures Placed(BeginJoin(s, r, choice).0)
  {
    var t := BeginJoin(s, r, choice).0;
    forall i, q | Holds(t, i, q)
      ensures t.monoliths[i].rooms[q].clients == if Holds(s, i, q) then s.monoliths[i].rooms[q].clients else []
    {
    }
    forall i, q, c | Listed(t, i, q, c)
      ensures c in t.clients && t.clients[c] == q
    {
      assert Listed(s, i, q, c);
    }
  }

  lemma CommitJoinKeepsPlacement(s: State, c: ClientId, r: RoomName, id: MonolithId)
    requires Placed(s) && c !in s.clients
    ensures Placed(CommitJoin(s, c, r, id).0)
    ensures id in s.monoliths ==> Listed(CommitJoin(s, c, r, id).0, id, r, c)
  {
    var t := CommitJoin(s, c, r, id).0;
    forall i, q | Holds(t, i, q)
      ensures t.monoliths[i].rooms[q].clients ==
              (if Holds(s, i, q) then s.monoliths[i].rooms[q].clients else []) + (if i == id && q == r then [c] else [])
              || t == s
    {
    }
    forall i, q, d | Listed(t, i, q, d)
      ensures d in t.clients && t.clients[d] == q
    {
      if d != c || t == s { assert Listed(s, i, q, d); }
      else if !(i == id && q == r) { assert Listed(s, i, q, d); }
    }
    forall i, q | Holds(t, i, q)
      ensures NoDuplicates(t.monoliths[i].rooms[q].clients)
    {
      if Holds(s, i, q) {
        assert NoDuplicates(s.monoliths[i].rooms[q].clients);
        assert c !in s.monoliths[i].rooms[q].clients by {
          if c in s.monoliths[i].rooms[q].clients { assert Listed(s, i, q, c); }
        }
      }
    }
  }

  /** Leaving keeps placement, and the client is on no list anywhere afterwards. */
  lemma BeginLeaveKeepsPlacement(s: State, c: ClientId)
    requires TablesSound(s) && Placed(s)
    ensures Placed(BeginLeave(s, c).0)
    ensures c !in BeginLeave(s, c).0.clients
    ensures forall id, r :: !Listed(BeginLeave(s, c).0, id, r, c)
  {
    var t := BeginLeave(s, c).0;
    forall i, q | Holds(t, i, q)
      ensures Holds(s, i, q) && NoDuplicates(t.monoliths[i].rooms[q].clients)
      ensures forall d :: Listed(t, i, q, d) ==> Listed(s, i, q, d)
    {
      WithoutKeepsNoDuplicates(s.monoliths[i].rooms[q].clients, c);
    }
    forall i, q | Holds(t, i, q)
      ensures c !in t.monoliths[i].rooms[q].clients
    {
      if c in s.monoliths[i].rooms[q].clients {
        assert Listed(s, i, q, c) && LocatedOn(s, q, i);
      }
    }
    forall i, q, d | Listed(t, i, q, d)
      ensures d in t.clients && t.clients[d] == q
    {
      assert Listed(s, i, q, d);
    }
  }

  /** Every client on a room's list is registered with that room and is there once, and the room is
      located on that monolith. */
  ghost predicate PlacedWhereLocated(s: State) {
    Placed(s) && forall id, r, c :: Listed(s, id, r, c) ==> LocatedOn(s, r, id)
  }

  lemma SoundTablesPlace(s: State)
    requires TablesSound(s) && Placed(s)
    ensures PlacedWhereLocated(s)
  {
  }

  /** A client that is committed where its room is not located is misplaced at once. */
  lemma LateCommitMisplaces(s: State, c: ClientId, r: RoomName, id: MonolithId)
    requires !JoinTimely(s, r, id)
    ensures !PlacedWhereLocated(CommitJoin(s, c, r, id).0)
  {
    var t := CommitJoin(s, c, r, id).0;
    assert Listed(t, id, r, c) && !LocatedOn(t, r, id);
  }

  /** With placement, a client is in at most one room of the whole snapshot, that room is located
      where the client is listed, and it is listed once. */
  lemma PlacedOnce(s: State, c: ClientId, i: MonolithId, q: RoomName, j: MonolithId, r: RoomName)
    requires PlacedWhereLocated(s) && Listed(s, i, q, c) && Listed(s, j, r, c)
    ensures i == j && q == r && s.clients[c] == r && LocatedOn(s, r, i)
    ensures multiset(s.monoliths[i].rooms[q].clients)[c] == 1
  {
    assert Holds(s, i, q) && Holds(s, j, r);
    OccursOnce(s.monoliths[i].rooms[q].clients, c);
  }

  lemma OccursOnce(l: seq<nat>, c: nat)
    requires NoDuplicates(l) && c in l
    ensures multiset(l)[c] == 1
  {
    var k :| 0 <= k < |l| && l[k] == c;
    assert l == l[..k] + [c] + l[k + 1..];
    assert c !in l[..k] && c !in l[k + 1..];
  }

  // ---------------------------------------------------------------- region index

  lemma AddNewMonolithKeepsIndex(s: State, id: MonolithId, region: Region)
    requires IndexAgrees(s) && id !in s.monoliths
    ensures IndexAgrees(AddMonolith(s, id, region))
  {
    var t := AddMonolith(s, id, region);
    forall g | g in t.regions
      ensures NoDuplicates(t.regions[g])
    {
      if g == region && region in s.regions {
        assert id !in s.regions[region];
      }
    }
  }

  lemma AddKnownMonolithBreaksIndex(s: State, id: MonolithId, region: Region)
    requires IndexAgrees(s) && id in s.monoliths
    ensures !IndexAgrees(AddMonolith(s, id, region))
  {
    var t := AddMonolith(s, id, region);
    var g := s.monoliths[id].region;
    assert id in s.regions[g];
    if g == region {
      var ids := s.regions[g];
      var k :| 0 <= k < |ids| && ids[k] == id;
      assert t.regions[g] == ids + [id];
      assert t.regions[g][k] == id && t.regions[g][|ids|] == id;
    } else {
      assert id in t.regions[g] && t.monoliths[id].region != g;
    }
  }

  /** Registering a monolith keeps the region index right exactly when its id is new. */
  lemma AddMonolithKeepsIndex(s: State, id: MonolithId, region: Region)
    requires IndexAgrees(s)
    ensures IndexAgrees(AddMonolith(s, id, region)) <==> id !in s.monoliths
  {
    if id in s.monoliths {
      AddKnownMonolithBreaksIndex(s, id, region);
    } else {
      AddNewMonolithKeepsIndex(s, id, region);
    }
  }

  lemma RemoveMonolithKeepsIndex(s: State, id: MonolithId)
    requires IndexAgrees(s)
    ensures IndexAgrees(RemoveMonolith(s, id))
  {
    var t := RemoveMonolith(s, id);
    if id in s.monoliths {
      var g := s.monoliths[id].region;
      WithoutKeepsNoDuplicates(s.regions[g], id);
      assert forall h, x :: h in t.regions && x in t.regions[h] ==> x in s.regions[h] && x != id;
    }
  }

  /** Sections that touch only rooms, locators and clients leave the index alone. */
  ghost predicate SameMonoliths(s: State, t: State) {
    && t.regions == s.regions
    && t.monoliths.Keys == s.monoliths.Keys
    && forall id :: id in s.monoliths ==> t.monoliths[id].region == s.monoliths[id].region
  }

  lemma SameMonolithsKeepIndex(s: State, t: State)
    requires SameMonoliths(s, t) && IndexAgrees(s)
    ensures IndexAgrees(t)
  {
  }

  lemma RemoveRoomKeepsMonoliths(s: State, r: RoomName, id: MonolithId)
    ensures SameMonoliths(s, RemoveRoom(s, r, id))
  {
  }

  lemma ReportKeepsMonoliths(s: State, r: RoomName, md: Metadata, id: MonolithId, e: Epoch)
    ensures SameMonoliths(s, Report(s, r, md, id, e).0)
  {
  }

  lemma BeginJoinKeepsMonoliths(s: State, r: RoomName, choice: Option<MonolithId>)
    ensures SameMonoliths(s, BeginJoin(s, r, choice).0)
  {
  }

  lemma ClientSectionsKeepMonoliths(s: State, r: RoomName, id: MonolithId, c: ClientId)
    ensures SameMonoliths(s, CommitJoin(s, c, r, id).0)
    ensures SameMonoliths(s, BeginLeave(s, c).0)
  {
  }

  /** Candidates for a new room are the registered monoliths of the balancer's own region when
      that region has ever been seen, even if none is left, and all registered ones otherwise. */
  lemma CandidatesMeaning(s: State, own: Region)
    requires IndexAgrees(s)
    ensures Candidates(s, own) ==
            set id | id in s.monoliths && (own in s.regions ==> s.monoliths[id].region == own)
    ensures Candidates(s, own) == {} <==>
            s.monoliths == map[] ||
            (own in s.regions && forall id :: id in s.monoliths ==> s.monoliths[id].region != own)
  {
    var all := set id | id in s.monoliths && (own in s.regions ==> s.monoliths[id].region == own);
    forall id
      ensures id in Candidates(s, own) <==> id in all
    {
    }
    if s.monoliths != map[] && Candidates(s, own) == {} {
      var id :| id in s.monoliths;
      assert id !in all;
      forall id | id in s.monoliths
        ensures own in s.regions && s.monoliths[id].region != own
      {
        assert id !in all;
      }
    }
  }

  // ---------------------------------------------------------------- the two ways to settle a report

  /** Releasing the lock before the unload message is sent changes nothing for a registered
      reporter. For an unregistered one it differs exactly when the report is not safe. */
  lemma ReportRefinesLockedReport(s: State, r: RoomName, md: Metadata, id: MonolithId, e: Epoch)
    requires LocatorsSound(s)
    ensures Report(s, r, md, id, e).1 == ReportUnderLock(s, r, md, id, e).1
    ensures Report(s, r, md, id, e).0 == ReportUnderLock(s, r, md, id, e).0 <==> ReportSafe(s, r, id, e)
    ensures LocatorsSound(ReportUnderLock(s, r, md, id, e).0)
  {
    ReportKeepsCoupling(s, r, md, id, e);
    if r in s.locators {
      RemoveRoomKeepsCoupling(s, r, s.locators[r].monolith);
    }
  }

  // ---------------------------------------------------------------- everything a section keeps

  /** From `s` to `t` all four invariants are kept, except that the locators survive exactly
      when `reportOk` and the tables exactly when `joinOk`. The tables do not need the locators. */
  ghost predicate Preserves(s: State, t: State, reportOk: bool, joinOk: bool) {
    && (LocatorsSound(s) ==> (LocatorsSound(t) <==> reportOk))
    && (TablesSound(s) ==> (TablesSound(t) <==> joinOk))
    && (TablesSound(s) && Placed(s) ==> Placed(t))
    && (IndexAgrees(s) ==> IndexAgrees(t))
  }

  lemma AddMonolithPreserves(s: State, id: MonolithId, region: Region)
    requires id !in s.monoliths
    ensures Preserves(s, AddMonolith(s, id, region), true, true)
  {
    AddMonolithKeepsCoupling(s, id, region);
    if IndexAgrees(s) {
      AddMonolithKeepsIndex(s, id, region);
    }
    if Placed(s) {
      AddMonolithKeepsPlacement(s, id, region);
    }
  }

  lemma RemoveMonolithPreserves(s: State, id: MonolithId)
    ensures Preserves(s, RemoveMonolith(s, id), true, true)
  {
    RemoveMonolithKeepsCoupling(s, id);
    if IndexAgrees(s) {
      RemoveMonolithKeepsIndex(s, id);
    }
    if TablesSound(s) && Placed(s) {
      RemoveMonolithKeepsPlacement(s, id);
    }
  }

  lemma RemoveRoomPreserves(s: State, r: RoomName, id: MonolithId)
    ensures Preserves(s, RemoveRoom(s, r, id), true, true)
  {
    RemoveRoomKeepsCoupling(s, r, id);
    RemoveRoomKeepsMonoliths(s, r, id);
    if IndexAgrees(s) {
      SameMonolithsKeepIndex(s, RemoveRoom(s, r, id));
    }
    if Placed(s) {
      RemoveRoomKeepsPlacement(s, r, id);
    }
  }

  lemma ReportPreserves(s: State, r: RoomName, md: Metadata, id: MonolithId, e: Epoch)
    ensures Preserves(s, Report(s, r, md, id, e).0, ReportSafe(s, r, id, e), true)
  {
    ReportKeepsMonoliths(s, r, md, id, e);
    if IndexAgrees(s) {
      SameMonolithsKeepIndex(s, Report(s, r, md, id, e).0);
    }
    ReportKeepsCoupling(s, r, md, id, e);
    if Placed(s) {
      ReportKeepsPlacement(s, r, md, id, e);
    }
  }

  lemma BeginJoinPreserves(s: State, r: RoomName, choice: Option<MonolithId>)
    ensures Preserves(s, BeginJoin(s, r, choice).0, true, true)
  {
    BeginJoinKeepsCoupling(s, r, choice);
    BeginJoinKeepsMonoliths(s, r, choice);
    if IndexAgrees(s) {
      SameMonolithsKeepIndex(s, BeginJoin(s, r, choice).0);
    }
    if Placed(s) {
      BeginJoinKeepsPlacement(s, r, choice);
    }
  }

  lemma CommitJoinPreserves(s: State, c: ClientId, r: RoomName, id: MonolithId)
    requires c !in s.clients
    ensures Preserves(s, CommitJoin(s, c, r, id).0, true, JoinTimely(s, r, id))
  {
    CommitJoinKeepsCoupling(s, c, r, id);
    ClientSectionsKeepMonoliths(s, r, id, c);
    if IndexAgrees(s) {
      SameMonolithsKeepIndex(s, CommitJoin(s, c, r, id).0);
    }
    if Placed(s) {
      CommitJoinKeepsPlacement(s, c, r, id);
    }
  }

  lemma RollBackJoinPreserves(s: State, r: RoomName, id: MonolithId, created: bool)
    ensures Preserves(s, RollBackJoin(s, r, id, created), true, true)
  {
    RemoveRoomPreserves(s, r, id);
  }

  lemma AbortJoinPreserves(s: State, r: RoomName, id: MonolithId, created: bool)
    ensures Preserves(s, AbortJoin(s, r, id, created), true, true)
  {
    RollBackJoinPreserves(s, r, id, created);
    RemoveMonolithPreserves(RollBackJoin(s, r, id, created), id);
  }

  lemma BeginLeavePreserves(s: State, c: ClientId)
    ensures Preserves(s, BeginLeave(s, c).0, true, true)
  {
    BeginLeaveKeepsCoupling(s, c);
    ClientSectionsKeepMonoliths(s, RoomName(""), 0, c);
    if IndexAgrees(s) {
      SameMonolithsKeepIndex(s, BeginLeave(s, c).0);
    }
    if TablesSound(s) && Placed(s) {
      BeginLeaveKeepsPlacement(s, c);
    }
  }
}
