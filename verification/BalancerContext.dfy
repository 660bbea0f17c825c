/** The shared state as the balancer changes it: hash maps updated in place, section by
    section. Every method is tied to the function of `BalancerState` that specifies it. */
module BalancerContext {
  import opened Options
  import opened RoomNames
  import opened BalancerState
  import opened BalancerInvariants

  class Context {
    var clients: map<ClientId, RoomName>
    var monoliths: map<MonolithId, Monolith>
    var roomsToMonoliths: map<RoomName, RoomLocator>
    var monolithsByRegion: map<Region, seq<MonolithId>>

    ghost function View(): State
      reads this
    {
      State(clients, monoliths, roomsToMonoliths, monolithsByRegion)
    }

    constructor ()
      ensures View() == EMPTY
    {
      clients, monoliths, roomsToMonoliths, monolithsByRegion := map[], map[], map[], map[];
    }

    method AddMonolith(id: MonolithId, region: Region)
      modifies this
      ensures View() == BalancerState.AddMonolith(old(View()), id, region)
    {
      monoliths := monoliths[id := Monolith(region, map[])];
      if region !in monolithsByRegion {
        monolithsByRegion := monolithsByRegion[region := []];
      }
      monolithsByRegion := monolithsByRegion[region := monolithsByRegion[region] + [id]];
    }

    method RemoveMonolith(id: MonolithId)
      modifies this
      ensures View() == BalancerState.RemoveMonolith(old(View()), id)
    {
      if id in monoliths {
        var region := monoliths[id].region;
        monoliths := monoliths - {id};
        if region in monolithsByRegion {
          var retained := Retain(monolithsByRegion[region], id);
          monolithsByRegion := monolithsByRegion[region := retained];
        }
      }
      assert monoliths == old(monoliths) - {id};
      roomsToMonoliths := map r | r in roomsToMonoliths && roomsToMonoliths[r].monolith != id :: roomsToMonoliths[r];
      clients := map c | c in clients && clients[c] in roomsToMonoliths :: clients[c];
    }

    method AddRoom(r: RoomName, locator: RoomLocator) returns (ok: bool)
      modifies this
      ensures (View(), ok) == BalancerState.AddRoom(old(View()), r, locator)
    {
      if locator.monolith !in monoliths {
        return false;
      }
      roomsToMonoliths := roomsToMonoliths[r := locator];
      var m := monoliths[locator.monolith];
      if r in m.rooms {
        return false;
      }
      monoliths := monoliths[locator.monolith := m.(rooms := m.rooms[r := Room([], None)])];
      ok := true;
    }

    /** The answer says whether the monolith was found; the caller of a clean-up ignores it. */
    method RemoveRoom(r: RoomName, id: MonolithId) returns (ok: bool)
      modifies this
      ensures View() == BalancerState.RemoveRoom(old(View()), r, id)
      ensures ok == (id in old(monoliths))
    {
      if id !in monoliths {
        return false;
      }
      if r in roomsToMonoliths && roomsToMonoliths[r].monolith == id {
        roomsToMonoliths := roomsToMonoliths - {r};
      }
      monoliths := monoliths[id := WithoutRoom(monoliths[id], r)];
      ok := true;
    }

    /** The locked section that settles a report, releasing the lock before any unload is sent. */
    method AddOrSyncRoomSection(r: RoomName, metadata: Metadata, id: MonolithId, epoch: Epoch)
      returns (verdict: Verdict)
      modifies this
      ensures (View(), verdict) == BalancerState.Report(old(View()), r, metadata, id, epoch)
    {
      if r in roomsToMonoliths && roomsToMonoliths[r].monolith != id {
        var locator := roomsToMonoliths[r];
        if locator.epoch < epoch {
          return if id in monoliths then Rejected else UnknownMonolith;
        }
        if locator.epoch == epoch {
          return Clashed;
        }
        if locator.monolith !in monoliths {
          return UnknownMonolith;
        }
        var _ := RemoveRoom(r, locator.monolith);
        roomsToMonoliths := roomsToMonoliths[r := RoomLocator(id, epoch)];
        if id !in monoliths {
          return UnknownMonolith;
        }
        monoliths := monoliths[id := WithMetadata(monoliths[id], r, metadata)];
        return Replaced(locator.monolith);
      }
      roomsToMonoliths := roomsToMonoliths[r := RoomLocator(id, epoch)];
      if id !in monoliths {
        return UnknownMonolith;
      }
      monoliths := monoliths[id := WithMetadata(monoliths[id], r, metadata)];
      verdict := Accepted;
    }

    /** The older form, which holds the lock while it sends. */
    method AddOrSyncRoom(r: RoomName, metadata: Metadata, id: MonolithId, epoch: Epoch) returns (verdict: Verdict)
      modifies this
      ensures (View(), verdict) == BalancerState.ReportUnderLock(old(View()), r, metadata, id, epoch)
    {
      var previous: Option<MonolithId> := None;
      if r in roomsToMonoliths && roomsToMonoliths[r].monolith != id {
        var locator := roomsToMonoliths[r];
        if locator.epoch < epoch {
          return if id in monoliths then Rejected else UnknownMonolith;
        }
        if locator.epoch == epoch {
          return Clashed;
        }
        if locator.monolith !in monoliths {
          return UnknownMonolith;
        }
        var _ := RemoveRoom(r, locator.monolith);
        previous := Some(locator.monolith);
      }
      if id !in monoliths {
        return UnknownMonolith;
      }
      roomsToMonoliths := roomsToMonoliths[r := RoomLocator(id, epoch)];
      monoliths := monoliths[id := WithMetadata(monoliths[id], r, metadata)];
      verdict := if previous.Some? then Replaced(previous.value) else Accepted;
    }

    /** The monoliths a new room may go to, in some order: the region's list restricted to
        registered ids when the region has ever been seen, otherwise every monolith. */
    method FilterMonoliths(own: Region) returns (ids: seq<MonolithId>)
      ensures forall id :: id in ids <==> id in Candidates(View(), own)
      ensures IndexAgrees(View()) ==> NoDuplicates(ids)
    {
      ids := [];
      if own in monolithsByRegion {
        var listed := monolithsByRegion[own];
        for i := 0 to |listed|
          invariant forall id :: id in ids <==> id in listed[..i] && id in monoliths
          invariant NoDuplicates(listed) ==> NoDuplicates(ids)
        {
          assert listed[..i + 1] == listed[..i] + [listed[i]];
          if listed[i] in monoliths {
            ids := ids + [listed[i]];
          }
        }
        assert listed[..|listed|] == listed;
      } else {
        var rest := monoliths.Keys;
        while rest != {}
          invariant rest <= monoliths.Keys
          invariant forall id :: id in ids <==> id in monoliths.Keys - rest
          invariant NoDuplicates(ids)
          decreases rest
        {
          var id :| id in rest;
          assert id !in ids;
          ids := ids + [id];
          rest := rest - {id};
        }
      }
    }

    method BeginJoin(r: RoomName, choice: Option<MonolithId>) returns (start: JoinStart)
      modifies this
      ensures (View(), start) == BalancerState.BeginJoin(old(View()), r, choice)
      ensures r in old(roomsToMonoliths) && Holds(old(View()), old(roomsToMonoliths)[r].monolith, r) ==>
                View() == old(View()) && start == Started(old(roomsToMonoliths)[r].monolith, false)
    {
      if r in roomsToMonoliths {
        var id := roomsToMonoliths[r].monolith;
        if id !in monoliths || r !in monoliths[id].rooms {
          return Panicked;
        }
        return Started(id, false);
      }
      if choice.None? {
        return Refused;
      }
      var ok := AddRoom(r, RoomLocator(choice.value, PLACEHOLDER_EPOCH));
      start := if ok then Started(choice.value, true) else Refused;
    }

    method CommitJoin(c: ClientId, r: RoomName, id: MonolithId) returns (ok: bool)
      modifies this
      ensures (View(), ok) == BalancerState.CommitJoin(old(View()), c, r, id)
      ensures ok <==> id in old(monoliths)
      ensures ok ==> Listed(View(), id, r, c) && c in clients && clients[c] == r
    {
      if id !in monoliths {
        return false;
      }
      monoliths := monoliths[id := WithClient(monoliths[id], r, c)];
      clients := clients[c := r];
      ok := true;
    }

    /** The join message could not be delivered: drop what the join created, then the monolith. */
    method AbortJoin(r: RoomName, id: MonolithId, created: bool)
      modifies this
      ensures View() == BalancerState.AbortJoin(old(View()), r, id, created)
    {
      if created {
        var _ := RemoveRoom(r, id);
      }
      RemoveMonolith(id);
    }

    method BeginLeave(c: ClientId) returns (departure: Departure)
      modifies this
      ensures (View(), departure) == BalancerState.BeginLeave(old(View()), c)
    {
      if c !in clients {
        return NotRegistered;
      }
      var r := clients[c];
      clients := clients - {c};
      if r !in roomsToMonoliths {
        return Unlocated;
      }
      var id := roomsToMonoliths[r].monolith;
      if id !in monoliths {
        return Unlocated;
      }
      var m := RemoveClientFromRooms(monoliths[id], c);
      monoliths := monoliths[id := m];
      departure := Notify(id);
    }

    /** A gossip taken to its end without interleaving. */
    method Gossip(id: MonolithId, gs: seq<GossipRoom>)
      requires id in monoliths
      modifies this
      ensures View() == BalancerState.Gossip(old(View()), id, gs)
    {
      var toRemove := set r | r in monoliths[id].rooms && !Mentions(gs, r);
      for i := 0 to |gs|
        invariant View() == GossipAll(old(View()), id, gs[..i])
      {
        assert gs[..i + 1][..i] == gs[..i];
        var verdict := AddOrSyncRoomSection(gs[i].name, gs[i].metadata, id, gs[i].epoch);
        if !verdict.Accepted? && !verdict.Replaced? {
          var _ := RemoveRoom(gs[i].name, id);
        }
      }
      assert gs[..|gs|] == gs;
      RemoveGossipedAway(id, toRemove);
    }

    method RemoveGossipedAway(id: MonolithId, toRemove: set<RoomName>)
      modifies this
      ensures View() == if id in old(monoliths) then RemoveRooms(old(View()), toRemove, id) else old(View())
    {
      var rest := toRemove;
      ghost var gone: set<RoomName> := {};
      if id in monoliths {
        assert monoliths[id].rooms - gone == monoliths[id].rooms;
        assert View() == RemoveRooms(old(View()), gone, id);
      }
      while rest != {}
        invariant rest + gone == toRemove
        invariant View() == if id in old(monoliths) then RemoveRooms(old(View()), gone, id) else old(View())
        decreases rest
      {
        var r :| r in rest;
        ghost var before := View();
        var _ := RemoveRoom(r, id);
        if id in old(monoliths) {
          RemoveOneMore(old(View()), gone, id, r);
        }
        rest, gone := rest - {r}, gone + {r};
      }
      assert gone == toRemove;
    }
  }

  lemma RemoveOneMore(s: State, gone: set<RoomName>, id: MonolithId, r: RoomName)
    requires id in s.monoliths
    ensures BalancerState.RemoveRoom(RemoveRooms(s, gone, id), r, id) == RemoveRooms(s, gone + {r}, id)
  {
    var t, u := BalancerState.RemoveRoom(RemoveRooms(s, gone, id), r, id), RemoveRooms(s, gone + {r}, id);
    assert t.monoliths[id].rooms == u.monoliths[id].rooms;
    assert t.monoliths == u.monoliths;
    assert t.locators == u.locators;
  }

  /** `Vec::retain` of everything but one id. */
  method Retain(ids: seq<nat>, x: nat) returns (kept: seq<nat>)
    ensures kept == Without(ids, x)
  {
    kept := [];
    for i := 0 to |ids|
      invariant kept == Without(ids[..i], x)
    {
      assert ids[..i + 1] == ids[..i] + [ids[i]];
      WithoutSnoc(ids[..i], ids[i], x);
      if ids[i] != x {
        kept := kept + [ids[i]];
      }
    }
    assert ids[..|ids|] == ids;
  }

  lemma {:induction false} WithoutSnoc(s: seq<nat>, y: nat, x: nat)
    ensures Without(s + [y], x) == Without(s, x) + (if y == x then [] else [y])
  {
    if s == [] {
      assert s + [y] == [y];
    } else {
      assert (s + [y])[1..] == s[1..] + [y];
      WithoutSnoc(s[1..], y, x);
    }
  }

  /** Remove the client from every room's list of the monolith. */
  method RemoveClientFromRooms(m: Monolith, c: ClientId) returns (after: Monolith)
    ensures after == WithoutClient(m, c)
  {
    var rooms := m.rooms;
    var rest := m.rooms.Keys;
    while rest != {}
      invariant rest <= m.rooms.Keys && rooms.Keys == m.rooms.Keys
      invariant forall r :: r in rest ==> rooms[r] == m.rooms[r]
      invariant forall r :: r in m.rooms.Keys - rest ==>
                  rooms[r] == m.rooms[r].(clients := Without(m.rooms[r].clients, c))
      decreases rest
    {
      var r :| r in rest;
      var kept := Retain(rooms[r].clients, c);
      rooms := rooms[r := rooms[r].(clients := kept)];
      rest := rest - {r};
    }
    after := m.(rooms := rooms);
  }
}
