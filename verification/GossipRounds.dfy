/** What a whole gossip from one monolith leaves behind, and that repeating it changes nothing. */
module GossipRounds {
  import opened Options
  import opened RoomNames
  import opened BalancerState
  import opened BalancerInvariants

  /** The last thing the gossip says about the room. */
  function LastMention(gs: seq<GossipRoom>, r: RoomName): GossipRoom
    requires Mentions(gs, r)
  {
    var g := gs[|gs| - 1];
    if g.name == r then g else MentionsSnoc(gs, r); LastMention(gs[..|gs| - 1], r)
  }

  lemma MentionsSnoc(gs: seq<GossipRoom>, r: RoomName)
    requires gs != []
    ensures Mentions(gs, r) <==> Mentions(gs[..|gs| - 1], r) || gs[|gs| - 1].name == r
  {
    var before := gs[..|gs| - 1];
    if Mentions(gs, r) && gs[|gs| - 1].name != r {
      var i :| 0 <= i < |gs| && gs[i].name == r;
      assert before[i].name == r;
    }
    if Mentions(before, r) {
      var i :| 0 <= i < |before| && before[i].name == r;
      assert gs[i].name == r;
    }
  }

  /** Some mention of the room claims an epoch below `e`. */
  predicate Undercuts(gs: seq<GossipRoom>, r: RoomName, e: Epoch) {
    exists i :: 0 <= i < |gs| && gs[i].name == r && gs[i].epoch < e
  }

  lemma UndercutsSnoc(gs: seq<GossipRoom>, r: RoomName, e: Epoch)
    requires gs != []
    ensures var g := gs[|gs| - 1];
            Undercuts(gs, r, e) <==> Undercuts(gs[..|gs| - 1], r, e) || (g.name == r && g.epoch < e)
  {
    var before, g := gs[..|gs| - 1], gs[|gs| - 1];
    if Undercuts(gs, r, e) && !(g.name == r && g.epoch < e) {
      var i :| 0 <= i < |gs| && gs[i].name == r && gs[i].epoch < e;
      assert before[i].name == r && before[i].epoch < e;
    }
    if Undercuts(before, r, e) {
      var i :| 0 <= i < |before| && before[i].name == r && before[i].epoch < e;
      assert gs[i].name == r && gs[i].epoch < e;
    }
  }

  /** The gossip gets the room for its sender: nobody else has it, or whoever has it is registered
      and the sender's is older. */
  predicate Wins(s: State, id: MonolithId, gs: seq<GossipRoom>, r: RoomName) {
    r in s.locators && s.locators[r].monolith != id ==>
      s.locators[r].monolith in s.monoliths && Undercuts(gs, r, s.locators[r].epoch)
  }

  /** Everything about the room is the same in both states. */
  ghost predicate SameRoom(s: State, t: State, r: RoomName) {
    && (r in t.locators <==> r in s.locators)
    && (r in s.locators ==> t.locators[r] == s.locators[r])
    && (forall k :: Holds(t, k, r) <==> Holds(s, k, r))
    && (forall k :: Holds(s, k, r) ==> t.monoliths[k].rooms[r] == s.monoliths[k].rooms[r])
  }

  /** The room on every monolith but one. */
  ghost predicate SameElsewhere(s: State, t: State, r: RoomName, id: MonolithId, lost: MonolithId) {
    && (forall k :: k != id ==> (Holds(t, k, r) <==> Holds(s, k, r) && k != lost))
    && (forall k :: k != id && Holds(t, k, r) ==> t.monoliths[k].rooms[r] == s.monoliths[k].rooms[r])
  }

  /** The sender's room after a win: located there at the last mentioned epoch, listed in its
      table with the last mentioned metadata, and taken from whoever had it. */
  ghost predicate WonRoom(s: State, t: State, id: MonolithId, gs: seq<GossipRoom>, r: RoomName)
    requires Mentions(gs, r)
  {
    var last := LastMention(gs, r);
    && r in t.locators && t.locators[r] == RoomLocator(id, last.epoch)
    && Holds(t, id, r) && t.monoliths[id].rooms[r].metadata == Some(last.metadata)
    && (LocatedOn(s, r, id) && Holds(s, id, r) ==> t.monoliths[id].rooms[r].clients == s.monoliths[id].rooms[r].clients)
    && SameElsewhere(s, t, r, id, if r in s.locators then s.locators[r].monolith else id)
  }

  /** The sender's room after a loss: it keeps its locator and is gone from the sender's table. */
  ghost predicate LostRoom(s: State, t: State, id: MonolithId, r: RoomName) {
    && r in s.locators && r in t.locators && t.locators[r] == s.locators[r]
    && !Holds(t, id, r)
    && SameElsewhere(s, t, r, id, id)
  }

  lemma RemoveOtherRoom(s: State, q: RoomName, id: MonolithId, r: RoomName)
    requires q != r
    ensures SameRoom(s, RemoveRoom(s, q, id), r)
  {
  }

  lemma LocateOtherRoom(s: State, q: RoomName, md: Metadata, id: MonolithId, e: Epoch, r: RoomName)
    requires q != r
    ensures SameRoom(s, Locate(s, q, md, id, e), r)
  {
  }

  lemma SameRoomTransitive(s: State, t: State, u: State, r: RoomName)
    requires SameRoom(s, t, r) && SameRoom(t, u, r)
    ensures SameRoom(s, u, r)
  {
  }

  lemma ReportOtherRoom(s: State, id: MonolithId, g: GossipRoom, r: RoomName)
    requires g.name != r
    ensures SameRoom(s, Report(s, g.name, g.metadata, id, g.epoch).0, r)
  {
    var q := g.name;
    if q !in s.locators || s.locators[q].monolith == id {
      LocateOtherRoom(s, q, g.metadata, id, g.epoch, r);
    } else if s.locators[q].epoch > g.epoch && s.locators[q].monolith in s.monoliths {
      var u := RemoveRoom(s, q, s.locators[q].monolith);
      var t := Locate(u, q, g.metadata, id, g.epoch);
      RemoveOtherRoom(s, q, s.locators[q].monolith, r);
      LocateOtherRoom(u, q, g.metadata, id, g.epoch, r);
      SameRoomTransitive(s, u, t, r);
      assert Report(s, q, g.metadata, id, g.epoch).0 == t;
    } else {
      assert Report(s, q, g.metadata, id, g.epoch).0 == s;
    }
  }

  lemma OtherRoomUntouched(s: State, id: MonolithId, g: GossipRoom, r: RoomName)
    requires g.name != r
    ensures SameRoom(s, GossipOne(s, id, g), r)
  {
    var t := Report(s, g.name, g.metadata, id, g.epoch).0;
    ReportOtherRoom(s, id, g, r);
    RemoveOtherRoom(t, g.name, id, r);
    SameRoomTransitive(s, t, RemoveRoom(t, g.name, id), r);
  }

  lemma GossipOneKeepsMonoliths(s: State, id: MonolithId, g: GossipRoom)
    ensures SameMonoliths(s, GossipOne(s, id, g))
    ensures GossipOne(s, id, g).clients == s.clients
  {
    ReportKeepsMonoliths(s, g.name, g.metadata, id, g.epoch);
    RemoveRoomKeepsMonoliths(Report(s, g.name, g.metadata, id, g.epoch).0, g.name, id);
  }

  lemma GossipOneWins(s: State, id: MonolithId, g: GossipRoom)
    requires id in s.monoliths && Wins(s, id, [g], g.name)
    ensures Mentions([g], g.name) && WonRoom(s, GossipOne(s, id, g), id, [g], g.name)
  {
    assert [g][0] == g;
    if g.name in s.locators && s.locators[g.name].monolith != id {
      assert Undercuts([g], g.name, s.locators[g.name].epoch);
    }
  }

  lemma GossipOneLoses(s: State, id: MonolithId, g: GossipRoom)
    requires id in s.monoliths && !Wins(s, id, [g], g.name)
    ensures LostRoom(s, GossipOne(s, id, g), id, g.name)
  {
    assert [g][0] == g;
    if [g][0].epoch < s.locators[g.name].epoch {
      assert Undercuts([g], g.name, s.locators[g.name].epoch);
    }
  }

  lemma {:induction false} GossipAllKeepsMonoliths(s: State, id: MonolithId, gs: seq<GossipRoom>)
    ensures SameMonoliths(s, GossipAll(s, id, gs)) && GossipAll(s, id, gs).clients == s.clients
    decreases |gs|
  {
    if gs != [] {
      var before := gs[..|gs| - 1];
      GossipAllKeepsMonoliths(s, id, before);
      GossipOneKeepsMonoliths(GossipAll(s, id, before), id, gs[|gs| - 1]);
    }
  }

  /** What the gossiped rooms, taken one after the other, do to any one room. */
  lemma {:induction false} GossipAllRoom(s: State, id: MonolithId, gs: seq<GossipRoom>, r: RoomName)
    requires id in s.monoliths
    ensures var t := GossipAll(s, id, gs);
            && (!Mentions(gs, r) ==> SameRoom(s, t, r))
            && (Mentions(gs, r) && Wins(s, id, gs, r) ==> WonRoom(s, t, id, gs, r))
            && (Mentions(gs, r) && !Wins(s, id, gs, r) ==> LostRoom(s, t, id, r))
    decreases |gs|
  {
    if gs != [] {
      var before, g := gs[..|gs| - 1], gs[|gs| - 1];
      var u := GossipAll(s, id, before);
      GossipAllRoom(s, id, before, r);
      GossipAllKeepsMonoliths(s, id, before);
      MentionsSnoc(gs, r);
      if r in s.locators {
        UndercutsSnoc(gs, r, s.locators[r].epoch);
      }
      if g.name != r {
        OtherRoomUntouched(u, id, g, r);
      } else {
        LastRoomSettled(s, id, gs, r);
      }
    }
  }

  lemma LastRoomSettled(s: State, id: MonolithId, gs: seq<GossipRoom>, r: RoomName)
    requires id in s.monoliths && gs != [] && gs[|gs| - 1].name == r && Mentions(gs, r)
    requires var before := gs[..|gs| - 1];
             var u := GossipAll(s, id, before);
             && SameMonoliths(s, u)
             && (!Mentions(before, r) ==> SameRoom(s, u, r))
             && (Mentions(before, r) && Wins(s, id, before, r) ==> WonRoom(s, u, id, before, r))
             && (Mentions(before, r) && !Wins(s, id, before, r) ==> LostRoom(s, u, id, r))
    ensures var t := GossipAll(s, id, gs);
            && (Wins(s, id, gs, r) ==> WonRoom(s, t, id, gs, r))
            && (!Wins(s, id, gs, r) ==> LostRoom(s, t, id, r))
  {
    var before, g := gs[..|gs| - 1], gs[|gs| - 1];
    var u := GossipAll(s, id, before);
    if r in s.locators {
      UndercutsSnoc(gs, r, s.locators[r].epoch);
    }
    if r in u.locators {
      UndercutsSnoc([g], r, u.locators[r].epoch);
      assert [g][..0] == [];
    }
    if !Mentions(before, r) && r in s.locators {
      assert !Undercuts(before, r, s.locators[r].epoch);
    }
    if Wins(u, id, [g], r) {
      GossipOneWins(u, id, g);
    } else {
      GossipOneLoses(u, id, g);
    }
  }

  // ---------------------------------------------------------------- the whole gossip

  lemma ForgottenRoomsRemoved(t: State, rs: set<RoomName>, id: MonolithId, r: RoomName)
    requires id in t.monoliths
    ensures r !in rs ==> SameRoom(t, RemoveRooms(t, rs, id), r)
    ensures r in rs ==> !Holds(RemoveRooms(t, rs, id), id, r) && !LocatedOn(RemoveRooms(t, rs, id), r, id)
    ensures r in rs && !LocatedOn(t, r, id) ==> (r in RemoveRooms(t, rs, id).locators <==> r in t.locators)
    ensures r in t.locators && r in RemoveRooms(t, rs, id).locators ==>
              RemoveRooms(t, rs, id).locators[r] == t.locators[r]
    ensures SameElsewhere(t, RemoveRooms(t, rs, id), r, id, id)
    ensures SameMonoliths(t, RemoveRooms(t, rs, id)) && RemoveRooms(t, rs, id).clients == t.clients
  {
  }

  /** After a gossip, its sender's table holds exactly the gossiped rooms that are located on
      the sender, and every gossiped room is located somewhere. */
  lemma GossipMakesTable(s: State, id: MonolithId, gs: seq<GossipRoom>, r: RoomName)
    requires id in s.monoliths
    ensures var t := Gossip(s, id, gs);
            && (Holds(t, id, r) <==> Mentions(gs, r) && LocatedOn(t, r, id))
            && (Mentions(gs, r) ==> r in t.locators)
  {
    GossipAllRoom(s, id, gs, r);
    GossipAllKeepsMonoliths(s, id, gs);
    ForgottenRoomsRemoved(GossipAll(s, id, gs), Forgotten(s, id, gs), id, r);
  }

  /** A gossip takes a room from another monolith exactly when that one is registered and the gossip
      mentions the room with an epoch strictly below the recorded one; otherwise that room's locator,
      and the room on every other monolith, stay as they were. */
  lemma GossipTakesOnlyYounger(s: State, id: MonolithId, gs: seq<GossipRoom>, r: RoomName, other: MonolithId)
    requires id in s.monoliths && other != id && LocatedOn(s, r, other)
    ensures var t := Gossip(s, id, gs);
            && (LocatedOn(t, r, id) <==> other in s.monoliths && Undercuts(gs, r, s.locators[r].epoch))
            && (!LocatedOn(t, r, id) ==> r in t.locators && t.locators[r] == s.locators[r])
            && (Holds(t, other, r) <==> Holds(s, other, r) && !LocatedOn(t, r, id))
            && (Holds(t, other, r) ==> t.monoliths[other].rooms[r] == s.monoliths[other].rooms[r])
  {
    GossipAllRoom(s, id, gs, r);
    GossipAllKeepsMonoliths(s, id, gs);
    ForgottenRoomsRemoved(GossipAll(s, id, gs), Forgotten(s, id, gs), id, r);
  }

  /** A second identical gossip finds nothing to do for any room. */
  lemma SecondGossipSameRoom(s: State, id: MonolithId, gs: seq<GossipRoom>, r: RoomName)
    requires id in s.monoliths
    ensures var t := Gossip(s, id, gs);
            id in t.monoliths && SameRoom(t, Gossip(t, id, gs), r)
  {
    var t1 := GossipAll(s, id, gs);
    GossipAllRoom(s, id, gs, r);
    GossipAllKeepsMonoliths(s, id, gs);
    ForgottenRoomsRemoved(t1, Forgotten(s, id, gs), id, r);
    var t := Gossip(s, id, gs);
    GossipKeepsMonoliths(s, id, gs);
    GossipMakesTable(s, id, gs, r);
    var u := GossipAll(t, id, gs);
    GossipAllRoom(t, id, gs, r);
    GossipAllKeepsMonoliths(t, id, gs);
    ForgottenRoomsRemoved(u, Forgotten(t, id, gs), id, r);
    if Mentions(gs, r) {
      MentionedRoomSettled(s, t, u, id, gs, r);
    }
    assert r !in Forgotten(t, id, gs);
    SameRoomTransitive(t, u, Gossip(t, id, gs), r);
  }

  /** A mentioned room that was won stays won in the same shape; one that was lost stays lost. */
  lemma MentionedRoomSettled(s: State, t: State, u: State, id: MonolithId, gs: seq<GossipRoom>, r: RoomName)
    requires Mentions(gs, r)
    requires id in s.monoliths && SameMonoliths(s, t)
    requires if Wins(s, id, gs, r) then WonRoom(s, t, id, gs, r) else LostRoom(s, t, id, r)
    requires if Wins(t, id, gs, r) then WonRoom(t, u, id, gs, r) else LostRoom(t, u, id, r)
    ensures SameRoom(t, u, r)
  {
    assert Wins(t, id, gs, r) <==> Wins(s, id, gs, r);
  }

  lemma GossipKeepsMonoliths(s: State, id: MonolithId, gs: seq<GossipRoom>)
    requires id in s.monoliths
    ensures SameMonoliths(s, Gossip(s, id, gs)) && Gossip(s, id, gs).clients == s.clients
  {
    GossipAllKeepsMonoliths(s, id, gs);
    ForgottenRoomsRemoved(GossipAll(s, id, gs), Forgotten(s, id, gs), id, RoomName(""));
  }

  lemma SameRoomsSameState(s: State, t: State)
    requires SameMonoliths(s, t) && s.clients == t.clients
    requires forall r :: SameRoom(s, t, r)
    ensures s == t
  {
    forall r
      ensures r in s.locators <==> r in t.locators
      ensures r in s.locators ==> s.locators[r] == t.locators[r]
    {
      assert SameRoom(s, t, r);
    }
    assert s.locators == t.locators;
    forall k | k in s.monoliths
      ensures s.monoliths[k] == t.monoliths[k]
    {
      forall r
        ensures r in s.monoliths[k].rooms <==> r in t.monoliths[k].rooms
        ensures r in s.monoliths[k].rooms ==> s.monoliths[k].rooms[r] == t.monoliths[k].rooms[r]
      {
        assert SameRoom(s, t, r);
        assert Holds(s, k, r) <==> Holds(t, k, r);
      }
      assert s.monoliths[k].rooms == t.monoliths[k].rooms;
    }
    assert s.monoliths == t.monoliths;
  }

  /** Processing the same gossip twice leaves the same state as processing it once. */
  lemma GossipIdempotent(s: State, id: MonolithId, gs: seq<GossipRoom>)
    requires id in s.monoliths
    ensures id in Gossip(s, id, gs).monoliths
    ensures Gossip(Gossip(s, id, gs), id, gs) == Gossip(s, id, gs)
  {
    var t := Gossip(s, id, gs);
    GossipKeepsMonoliths(s, id, gs);
    GossipKeepsMonoliths(t, id, gs);
    forall r
      ensures SameRoom(t, Gossip(t, id, gs), r)
    {
      SecondGossipSameRoom(s, id, gs, r);
    }
    SameRoomsSameState(t, Gossip(t, id, gs));
  }

  // ---------------------------------------------------------------- sound locators

  lemma {:induction false} GossipAllKeepsSound(s: State, id: MonolithId, gs: seq<GossipRoom>)
    requires LocatorsSound(s) && id in s.monoliths
    ensures LocatorsSound(GossipAll(s, id, gs))
    decreases |gs|
  {
    if gs != [] {
      var before, g := gs[..|gs| - 1], gs[|gs| - 1];
      var u := GossipAll(s, id, before);
      GossipAllKeepsSound(s, id, before);
      GossipAllKeepsMonoliths(s, id, before);
      ReportKeepsCoupling(u, g.name, g.metadata, id, g.epoch);
      RemoveRoomKeepsCoupling(Report(u, g.name, g.metadata, id, g.epoch).0, g.name, id);
    }
  }

  lemma ForgettingKeepsSound(u: State, rs: set<RoomName>, id: MonolithId)
    requires LocatorsSound(u) && id in u.monoliths
    ensures LocatorsSound(RemoveRooms(u, rs, id))
  {
    var t := RemoveRooms(u, rs, id);
    forall r | r in t.locators
      ensures Holds(t, t.locators[r].monolith, r)
    {
      ForgottenRoomsRemoved(u, rs, id, r);
      assert Holds(u, u.locators[r].monolith, r);
    }
  }

  /** A gossip from a registered monolith keeps sound locators sound. */
  lemma GossipKeepsSound(s: State, id: MonolithId, gs: seq<GossipRoom>)
    requires LocatorsSound(s) && id in s.monoliths
    ensures LocatorsSound(Gossip(s, id, gs))
  {
    GossipAllKeepsSound(s, id, gs);
    GossipAllKeepsMonoliths(s, id, gs);
    ForgettingKeepsSound(GossipAll(s, id, gs), Forgotten(s, id, gs), id);
  }

  /** What a gossip leaves of the locators: a gossiped room is located on a monolith that has it
      exactly if the sender wins it or the room was so before; so a locator that names a monolith
      that is gone stays, whoever gossips the room. */
  lemma GossipRepairsExactly(s: State, id: MonolithId, gs: seq<GossipRoom>, r: RoomName)
    requires id in s.monoliths && Mentions(gs, r)
    ensures var t := Gossip(s, id, gs);
            r in t.locators && (Holds(t, t.locators[r].monolith, r) <==>
                                Wins(s, id, gs, r) || Holds(s, s.locators[r].monolith, r))
  {
    GossipAllRoom(s, id, gs, r);
    GossipAllKeepsMonoliths(s, id, gs);
    ForgottenRoomsRemoved(GossipAll(s, id, gs), Forgotten(s, id, gs), id, r);
  }
}
