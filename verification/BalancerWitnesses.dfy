/** Concrete runs that show the guards of `BalancerWorld` are needed. */
module BalancerWitnesses {
  import opened Options
  import opened RoomNames
  import opened BalancerState
  import opened BalancerInvariants
  import opened BalancerWorld
  import opened BalancerSession

  lemma {:induction false} RunSnoc(w: World, steps: seq<Step>, step: Step)
    requires Admissible(w, steps) && Enabled(After(w, steps), step)
    ensures Admissible(w, steps + [step])
    ensures After(w, steps + [step]) == Next(After(w, steps), step)
    ensures ReportsGuarded(w, steps + [step]) <==> ReportsGuarded(w, steps) && ReportGuard(After(w, steps), step)
    ensures JoinsGuarded(w, steps + [step]) <==> JoinsGuarded(w, steps) && JoinGuard(After(w, steps), step)
    decreases |steps|
  {
    var all := steps + [step];
    if steps == [] {
      assert all == [step] && all[1..] == [];
    } else {
      assert all[0] == steps[0] && all[1..] == steps[1..] + [step];
      RunSnoc(Next(w, steps[0]), steps[1..], step);
    }
  }

  // ---------------------------------------------------------------- shared beginnings

  ghost predicate Guarded(own: Region, steps: seq<Step>)
    requires Admissible(Start(own), steps)
  {
    ReportsGuarded(Start(own), steps) && JoinsGuarded(Start(own), steps)
  }

  /** One more step of a guarded run. */
  lemma Extend(own: Region, steps: seq<Step>, step: Step) returns (more: seq<Step>)
    requires Admissible(Start(own), steps) && Guarded(own, steps)
    requires Enabled(After(Start(own), steps), step)
    requires ReportGuard(After(Start(own), steps), step) && JoinGuard(After(Start(own), steps), step)
    ensures more == steps + [step]
    ensures Admissible(Start(own), more) && Guarded(own, more)
    ensures After(Start(own), more) == Next(After(Start(own), steps), step)
  {
    RunSnoc(Start(own), steps, step);
    more := steps + [step];
  }

  /** A monolith joins and reports a room. */
  lemma RoomUp(own: Region, room: RoomName, id: MonolithId, epoch: Epoch) returns (steps: seq<Step>)
    ensures Admissible(Start(own), steps) && Guarded(own, steps)
    ensures var w := After(Start(own), steps);
            && w.own == own && w.seenMonoliths == {id} && w.seenClients == {} && w.outbox == map[]
            && w.joins == map[] && w.links == map[] && w.leaving == map[] && w.departed == {}
            && w.ctx.clients == map[] && w.ctx.locators == map[room := RoomLocator(id, epoch)]
            && Holds(w.ctx, id, room) && w.ctx.monoliths.Keys == {id}
  {
    steps := [];
    assert Admissible(Start(own), steps) && After(Start(own), steps) == Start(own);
    steps := Extend(own, steps, MonolithJoins(id, own));
    steps := Extend(own, steps, RoomReported(room, "", id, epoch));
  }

  /** A client asks for the room and the monolith is told. */
  lemma ClientTold(own: Region, room: RoomName, id: MonolithId, epoch: Epoch, c: ClientId) returns (steps: seq<Step>)
    ensures Admissible(Start(own), steps) && Guarded(own, steps)
    ensures var w := After(Start(own), steps);
            && w.own == own && w.seenMonoliths == {id} && w.outbox == map[id := [Join(room, c)]]
            && w.joins == map[c := PendingJoin(room, id, false, true)]
            && w.links == map[] && w.leaving == map[] && w.departed == {}
            && w.ctx.clients == map[] && w.ctx.locators == map[room := RoomLocator(id, epoch)]
            && Holds(w.ctx, id, room) && w.ctx.monoliths.Keys == {id}
  {
    steps := RoomUp(own, room, id, epoch);
    var s := After(Start(own), steps).ctx;
    var choice: Option<MonolithId> :=
      if Candidates(s, own) == {} then None else var m :| m in Candidates(s, own); Some(m);
    steps := Extend(own, steps, ClientArrives(c, room, choice));
    assert After(Start(own), steps).joins == map[c := PendingJoin(room, id, false, false)];
    steps := Extend(own, steps, JoinSent(c, Delivered));
    assert [] + [Join(room, c)] == [Join(room, c)];
  }

  // ---------------------------------------------------------------- a report that comes late

  lemma MonolithGone(own: Region, id: MonolithId) returns (steps: seq<Step>)
    ensures steps == [MonolithJoins(id, own), MonolithLeaves(id)]
    ensures Admissible(Start(own), steps) && Guarded(own, steps)
    ensures var s := After(Start(own), steps).ctx;
            s.monoliths == map[] && s.locators == map[] && s.clients == map[]
  {
    steps := [];
    assert Admissible(Start(own), steps) && After(Start(own), steps) == Start(own);
    steps := Extend(own, steps, MonolithJoins(id, own));
    steps := Extend(own, steps, MonolithLeaves(id));
    var s := After(Start(own), steps).ctx;
    assert s.monoliths == map[] && s.locators == map[] && s.clients == map[];
  }

  /** A report of a monolith that is handled after the monolith has left leaves a locator to nowhere,
      and the next client to ask for that room makes the balancer panic. */
  lemma LateReportPanics(own: Region, room: RoomName, id: MonolithId, epoch: Epoch)
    ensures var steps := [MonolithJoins(id, own), MonolithLeaves(id), RoomReported(room, "", id, epoch)];
            && Admissible(Start(own), steps)
            && !LocatorsSound(After(Start(own), steps).ctx)
            && BeginJoin(After(Start(own), steps).ctx, room, None).1.Panicked?
  {
    var steps := MonolithGone(own, id);
    var report := RoomReported(room, "", id, epoch);
    RunSnoc(Start(own), steps, report);
    assert steps + [report] == [MonolithJoins(id, own), MonolithLeaves(id), report];
    var s := After(Start(own), steps + [report]).ctx;
    assert s.locators[room].monolith == id && !Holds(s, id, room);
  }

  // ---------------------------------------------------------------- a join that is committed late

  /** The room is unloaded between the two halves of a client's join. */
  lemma LateJoin(own: Region, room: RoomName, id: MonolithId, c: ClientId) returns (steps: seq<Step>)
    ensures Admissible(Start(own), steps) && ReportsGuarded(Start(own), steps) && !JoinsGuarded(Start(own), steps)
    ensures var w := After(Start(own), steps);
            && w.links == map[c := Link(id, [], false)] && w.leaving == map[] && w.departed == {}
            && w.ctx.clients == map[c := room] && w.ctx.locators == map[]
            && Listed(w.ctx, id, room, c)
  {
    steps := ClientTold(own, room, id, 0, c);
    steps := Extend(own, steps, RoomDropped(room, id));
    RunSnoc(Start(own), steps, JoinCommitted(c, true));
    steps := steps + [JoinCommitted(c, true)];
  }

  /** A join committed after its room was unloaded puts the room back on the monolith with no
      locator. When that client leaves, nobody is told, and it stays on the room's list. */
  lemma LateJoinStaysListed(own: Region, room: RoomName, id: MonolithId, c: ClientId) returns (steps: seq<Step>)
    ensures Admissible(Start(own), steps) && ReportsGuarded(Start(own), steps)
    ensures var w := After(Start(own), steps);
            && c !in w.ctx.clients && c !in w.leaving && c !in w.departed
            && Listed(w.ctx, id, room, c) && !TablesSound(w.ctx)
  {
    steps := LateJoin(own, room, id, c);
    RunSnoc(Start(own), steps, ClientSends(c, Close));
    steps := steps + [ClientSends(c, Close)];
    assert [] + [Close] == [Close];
    assert After(Start(own), steps).links == map[c := Link(id, [Close], true)];
    RunSnoc(Start(own), steps, FrameHandled(c, false));
    steps := steps + [FrameHandled(c, false)];
    var s := After(Start(own), steps).ctx;
    assert Holds(s, id, room) && !LocatedOn(s, room, id);
  }

  // ---------------------------------------------------------------- a room that moves under its clients

  /** The client is in, and then an older instance of its room turns up on a second monolith. */
  lemma RoomMoved(own: Region, room: RoomName, c: ClientId) returns (steps: seq<Step>)
    ensures Admissible(Start(own), steps) && Guarded(own, steps)
    ensures var w := After(Start(own), steps);
            && w.links == map[c := Link(1, [], false)] && w.leaving == map[]
            && w.outbox == map[1 := [Join(room, c)]]
            && w.ctx.clients == map[c := room] && LocatedOn(w.ctx, room, 2) && 2 in w.ctx.monoliths
  {
    steps := ClientTold(own, room, 1, 8, c);
    steps := Extend(own, steps, JoinCommitted(c, true));
    steps := Extend(own, steps, MonolithJoins(2, own));
    steps := Extend(own, steps, RoomReported(room, "", 2, 6));
  }

  lemma MovedRoomLeaving(own: Region, room: RoomName, c: ClientId) returns (steps: seq<Step>)
    ensures Admissible(Start(own), steps) && Guarded(own, steps)
    ensures var w := After(Start(own), steps);
            w.leaving == map[c := 2] && w.outbox == map[1 := [Join(room, c)]]
  {
    steps := RoomMoved(own, room, c);
    steps := Extend(own, steps, ClientSends(c, Close));
    assert [] + [Close] == [Close];
    assert After(Start(own), steps).links == map[c := Link(1, [Close], true)];
    steps := Extend(own, steps, FrameHandled(c, false));
  }

  lemma MovedRoomLeft(own: Region, room: RoomName, c: ClientId) returns (steps: seq<Step>)
    ensures Admissible(Start(own), steps) && Guarded(own, steps)
    ensures After(Start(own), steps).outbox == map[1 := [Join(room, c)], 2 := [Leave(c)]]
  {
    steps := MovedRoomLeaving(own, room, c);
    steps := Extend(own, steps, LeaveSent(c, Delivered));
    assert [] + [Leave(c)] == [Leave(c)];
  }

  lemma AboutOne(w: World, m: MonolithId, msg: Msg, c: ClientId)
    requires Outbox(w, m) == [msg] && Concerns(msg, c)
    ensures Told(w, m, c) == [msg]
  {
    var box := Outbox(w, m);
    assert box[..|box| - 1] == [] && box[|box| - 1] == msg;
    assert About(box[..|box| - 1], c) == [];
    assert [] + [msg] == [msg];
  }

  /** A fully guarded run in which the room moves to an older instance while a client is in it:
      the client's leave is then told to a monolith that was never told of its join. */
  lemma MovedRoomTellsStranger(own: Region, room: RoomName, c: ClientId) returns (steps: seq<Step>)
    ensures Admissible(Start(own), steps) && Guarded(own, steps)
    ensures var w := After(Start(own), steps);
            Told(w, 1, c) == [Join(room, c)] && Told(w, 2, c) == [Leave(c)]
  {
    steps := MovedRoomLeft(own, room, c);
    AboutOne(After(Start(own), steps), 1, Join(room, c), c);
    AboutOne(After(Start(own), steps), 2, Leave(c), c);
  }
}
