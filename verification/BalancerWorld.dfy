/** The balancer as a transition system. Every lock-protected section and every send is one
    step, so a run is any interleaving of the tasks that share the state. */
module BalancerWorld {
  import opened Options
  import opened RoomNames
  import opened BalancerState
  import opened BalancerInvariants

  /** Messages to a monolith that the balancer sends on behalf of clients and rooms. */
  datatype Msg =
    | Join(room: RoomName, client: ClientId)
    | Leave(client: ClientId)
    | ClientMsg(client: ClientId)
    | Unload(room: RoomName)

  /** A full or closed channel is a `ChannelError`; a message that cannot be encoded an `EncodeError`. */
  datatype Delivery = Delivered | ChannelError | EncodeError

  /** What a client puts on its link: a message to relay, or the end of the session. */
  datatype Frame = Text | Close

  /** A join between its two locked sections; `told` once the monolith was sent the join. */
  datatype PendingJoin = PendingJoin(room: RoomName, monolith: MonolithId, created: bool, told: bool)

  /** A client's first-in first-out channel into the task of the monolith it joined. */
  datatype Link = Link(monolith: MonolithId, queue: seq<Frame>, hungUp: bool)

  datatype World = World(
    own: Region,
    ctx: State,
    joins: map<ClientId, PendingJoin>,
    links: map<ClientId, Link>,
    leaving: map<ClientId, MonolithId>,          // leaves whose message is still to be sent
    unloads: seq<(MonolithId, RoomName)>,        // unloads whose message is still to be sent
    outbox: map<MonolithId, seq<Msg>>,           // everything delivered to each monolith so far
    seenMonoliths: set<MonolithId>,
    seenClients: set<ClientId>,
    home: map<ClientId, MonolithId>,             // history: where each join was sent
    departed: set<ClientId>)                     // history: clients whose leave was announced

  function Start(own: Region): World {
    World(own, EMPTY, map[], map[], map[], [], map[], {}, {}, map[], {})
  }

  datatype Step =
    | MonolithJoins(id: MonolithId, region: Region)
    | MonolithLeaves(id: MonolithId)
    | ClientArrives(c: ClientId, room: RoomName, choice: Option<MonolithId>)
    | JoinSent(c: ClientId, delivery: Delivery)
    | JoinCommitted(c: ClientId, linkTaken: bool)
    | ClientSends(c: ClientId, frame: Frame)
    | FrameHandled(c: ClientId, relayed: bool)
    | LeaveSent(c: ClientId, delivery: Delivery)
    | RoomReported(room: RoomName, metadata: Metadata, id: MonolithId, epoch: Epoch)
    | RoomDropped(room: RoomName, id: MonolithId)
    | UnloadSent(index: nat, delivered: bool)

  function Outbox(w: World, id: MonolithId): seq<Msg> {
    if id in w.outbox then w.outbox[id] else []
  }

  /** The outboxes after one more message was delivered to the monolith. */
  function Delivering(w: World, id: MonolithId, msg: Msg): map<MonolithId, seq<Msg>> {
    w.outbox[id := Outbox(w, id) + [msg]]
  }

  /** Ids are never reused, selection answers with a candidate whenever there is one, and a
      client's socket yields no text after its end. Reports and drops may arrive at any time. */
  predicate Enabled(w: World, step: Step) {
    match step
    case MonolithJoins(id, _) => id !in w.seenMonoliths
    case MonolithLeaves(_) => true
    case ClientArrives(c, _, choice) =>
      && c !in w.seenClients
      && (choice.Some? ==> choice.value in Candidates(w.ctx, w.own))
      && (choice.None? ==> Candidates(w.ctx, w.own) == {})
    case JoinSent(c, _) => c in w.joins && !w.joins[c].told
    case JoinCommitted(c, _) => c in w.joins && w.joins[c].told
    case ClientSends(c, frame) => c in w.links && (frame.Text? ==> !w.links[c].hungUp)
    case FrameHandled(c, _) => c in w.links && w.links[c].queue != [] && c !in w.leaving
    case LeaveSent(c, _) => c in w.leaving
    case RoomReported(_, _, _, _) => true
    case RoomDropped(_, _) => true
    case UnloadSent(i, _) => i < |w.unloads|
  }

  function Next(w: World, step: Step): World
    requires Enabled(w, step)
  {
    match step
    case MonolithJoins(id, region) => NextMonolithJoins(w, id, region)
    case MonolithLeaves(id) => w.(ctx := RemoveMonolith(w.ctx, id))
    case ClientArrives(c, room, choice) => NextClientArrives(w, c, room, choice)
    case JoinSent(c, delivery) => NextJoinSent(w, c, delivery)
    case JoinCommitted(c, linkTaken) => NextJoinCommitted(w, c, linkTaken)
    case ClientSends(c, frame) => NextClientSends(w, c, frame)
    case FrameHandled(c, relayed) => NextFrameHandled(w, c, relayed)
    case LeaveSent(c, delivery) => NextLeaveSent(w, c, delivery)
    case RoomReported(room, metadata, id, epoch) => NextRoomReported(w, room, metadata, id, epoch)
    case RoomDropped(room, id) => w.(ctx := RemoveRoom(w.ctx, room, id))
    case UnloadSent(i, delivered) => NextUnloadSent(w, i, delivered)
  }

  function NextMonolithJoins(w: World, id: MonolithId, region: Region): World {
    w.(ctx := AddMonolith(w.ctx, id, region), seenMonoliths := w.seenMonoliths + {id})
  }

  function NextClientArrives(w: World, c: ClientId, room: RoomName, choice: Option<MonolithId>): World {
    var (ctx, start) := BeginJoin(w.ctx, room, choice);
    w.(ctx := ctx, seenClients := w.seenClients + {c},
       joins := if start.Started? then w.joins[c := PendingJoin(room, start.monolith, start.created, false)]
                else w.joins,
       home := if start.Started? then w.home[c := start.monolith] else w.home)
  }

  function NextJoinSent(w: World, c: ClientId, delivery: Delivery): World
    requires c in w.joins
  {
    var j := w.joins[c];
    if delivery.Delivered? then
      w.(joins := w.joins[c := j.(told := true)], outbox := Delivering(w, j.monolith, Join(j.room, c)))
    else
      w.(joins := w.joins - {c}, ctx := UndoJoin(w.ctx, j, delivery))
  }

  function UndoJoin(s: State, j: PendingJoin, delivery: Delivery): (t: State)
    ensures t.monoliths.Keys <= s.monoliths.Keys && t.clients.Keys <= s.clients.Keys
  {
    if delivery.ChannelError? then AbortJoin(s, j.room, j.monolith, j.created)
    else RollBackJoin(s, j.room, j.monolith, j.created)
  }

  function NextJoinCommitted(w: World, c: ClientId, linkTaken: bool): World
    requires c in w.joins
  {
    var j := w.joins[c];
    var (ctx, ok) := CommitJoin(w.ctx, c, j.room, j.monolith);
    w.(ctx := ctx, joins := w.joins - {c},
       links := if ok && linkTaken then w.links[c := Link(j.monolith, [], false)] else w.links)
  }

  function NextClientSends(w: World, c: ClientId, frame: Frame): World
    requires c in w.links
  {
    var l := w.links[c];
    w.(links := w.links[c := l.(queue := l.queue + [frame], hungUp := l.hungUp || frame.Close?)])
  }

  /** The monolith's task takes the client's next frame: it relays a text, and runs the locked
      section of a leave for a close. */
  function NextFrameHandled(w: World, c: ClientId, relayed: bool): World
    requires c in w.links && w.links[c].queue != []
  {
    var l := w.links[c];
    var links := w.links[c := l.(queue := l.queue[1..])];
    if l.queue[0].Text? then
      w.(links := links, outbox := if relayed then Delivering(w, l.monolith, ClientMsg(c)) else w.outbox)
    else
      var (ctx, departure) := BeginLeave(w.ctx, c);
      w.(links := links, ctx := ctx,
         leaving := if departure.Notify? then w.leaving[c := departure.monolith] else w.leaving,
         departed := if departure.Notify? then w.departed + {c} else w.departed)
  }

  function NextLeaveSent(w: World, c: ClientId, delivery: Delivery): World
    requires c in w.leaving
  {
    if delivery.Delivered? then
      w.(leaving := w.leaving - {c}, outbox := Delivering(w, w.leaving[c], Leave(c)))
    else
      w.(leaving := w.leaving - {c},
         ctx := if delivery.ChannelError? then RemoveMonolith(w.ctx, w.leaving[c]) else w.ctx)
  }

  function NextRoomReported(w: World, room: RoomName, metadata: Metadata, id: MonolithId, epoch: Epoch): World {
    var (ctx, verdict) := Report(w.ctx, room, metadata, id, epoch);
    w.(ctx := ctx,
       unloads := match verdict
         case Rejected => w.unloads + [(id, room)]
         case Replaced(previous) => w.unloads + [(previous, room)]
         case _ => w.unloads)
  }

  function NextUnloadSent(w: World, i: nat, delivered: bool): World
    requires i < |w.unloads|
  {
    w.(unloads := w.unloads[..i] + w.unloads[i + 1..],
       outbox := if delivered then Delivering(w, w.unloads[i].0, Unload(w.unloads[i].1)) else w.outbox)
  }

  // ---------------------------------------------------------------- runs

  ghost predicate Admissible(w: World, steps: seq<Step>)
    decreases |steps|
  {
    steps == [] || (Enabled(w, steps[0]) && Admissible(Next(w, steps[0]), steps[1..]))
  }

  ghost function After(w: World, steps: seq<Step>): World
    requires Admissible(w, steps)
    decreases |steps|
  {
    if steps == [] then w else After(Next(w, steps[0]), steps[1..])
  }

  /** A report comes from a registered monolith, or loses against an instance located elsewhere. */
  predicate ReportGuard(w: World, step: Step) {
    step.RoomReported? ==> ReportSafe(w.ctx, step.room, step.id, step.epoch)
  }

  /** A join is committed while its room is still located where the join was sent. */
  predicate JoinGuard(w: World, step: Step)
    requires Enabled(w, step)
  {
    step.JoinCommitted? ==> JoinTimely(w.ctx, w.joins[step.c].room, w.joins[step.c].monolith)
  }

  ghost predicate ReportsGuarded(w: World, steps: seq<Step>)
    requires Admissible(w, steps)
    decreases |steps|
  {
    steps == [] || (ReportGuard(w, steps[0]) && ReportsGuarded(Next(w, steps[0]), steps[1..]))
  }

  ghost predicate JoinsGuarded(w: World, steps: seq<Step>)
    requires Admissible(w, steps)
    decreases |steps|
  {
    steps == [] || (JoinGuard(w, steps[0]) && JoinsGuarded(Next(w, steps[0]), steps[1..]))
  }

  ghost predicate AlwaysLocatorsSound(w: World, steps: seq<Step>)
    requires Admissible(w, steps)
    decreases |steps|
  {
    LocatorsSound(w.ctx) && (steps != [] ==> AlwaysLocatorsSound(Next(w, steps[0]), steps[1..]))
  }

  ghost predicate AlwaysCoupled(w: World, steps: seq<Step>)
    requires Admissible(w, steps)
    decreases |steps|
  {
    Coupled(w.ctx) && (steps != [] ==> AlwaysCoupled(Next(w, steps[0]), steps[1..]))
  }

  ghost predicate AlwaysPanicFree(w: World, steps: seq<Step>)
    requires Admissible(w, steps)
    decreases |steps|
  {
    PanicFree(w.ctx) && (steps != [] ==> AlwaysPanicFree(Next(w, steps[0]), steps[1..]))
  }

  ghost predicate AlwaysPlaced(w: World, steps: seq<Step>)
    requires Admissible(w, steps)
    decreases |steps|
  {
    PlacedWhereLocated(w.ctx) && (steps != [] ==> AlwaysPlaced(Next(w, steps[0]), steps[1..]))
  }

  // ---------------------------------------------------------------- what one step keeps

  /** Ids in use have been seen, and a client is never both joining and registered. */
  ghost predicate Fresh(w: World) {
    && (forall id :: id in w.ctx.monoliths ==> id in w.seenMonoliths)
    && (forall c :: c in w.joins ==> c in w.seenClients && c !in w.ctx.clients)
    && (forall c :: c in w.ctx.clients ==> c in w.seenClients)
  }

  /** What one step keeps: fresh ids, and all four invariants of the state, except that a
      report keeps the locators exactly when it is guarded and a join commit keeps the tables
      exactly when it is guarded. */
  ghost predicate StepOk(w: World, step: Step)
    requires Enabled(w, step)
  {
    && Fresh(Next(w, step))
    && Preserves(w.ctx, Next(w, step).ctx, ReportGuard(w, step), JoinGuard(w, step))
  }

  lemma SamePreserves(s: State)
    ensures Preserves(s, s, true, true)
  {
  }

  lemma MonolithStepPreserves(w: World, step: Step)
    requires Enabled(w, step) && Fresh(w)
    requires step.MonolithJoins? || step.MonolithLeaves? || step.RoomReported? || step.RoomDropped?
    ensures Preserves(w.ctx, Next(w, step).ctx, ReportGuard(w, step), JoinGuard(w, step))
  {
    match step
    case MonolithJoins(id, region) => AddMonolithPreserves(w.ctx, id, region);
    case MonolithLeaves(id) => RemoveMonolithPreserves(w.ctx, id);
    case RoomReported(room, metadata, id, epoch) => ReportPreserves(w.ctx, room, metadata, id, epoch);
    case RoomDropped(room, id) => RemoveRoomPreserves(w.ctx, room, id);
  }

  lemma JoinStepPreserves(w: World, step: Step)
    requires Enabled(w, step) && Fresh(w)
    requires step.ClientArrives? || step.JoinCommitted?
    ensures Preserves(w.ctx, Next(w, step).ctx, ReportGuard(w, step), JoinGuard(w, step))
  {
    match step
    case ClientArrives(c, room, choice) => BeginJoinPreserves(w.ctx, room, choice);
    case JoinCommitted(c, _) => CommitJoinPreserves(w.ctx, c, w.joins[c].room, w.joins[c].monolith);
  }

  lemma JoinSentPreserves(w: World, step: Step)
    requires Enabled(w, step) && step.JoinSent?
    ensures Preserves(w.ctx, Next(w, step).ctx, true, true)
  {
    var j := w.joins[step.c];
    if step.delivery.Delivered? {
      SamePreserves(w.ctx);
    } else if step.delivery.ChannelError? {
      AbortJoinPreserves(w.ctx, j.room, j.monolith, j.created);
    } else {
      RollBackJoinPreserves(w.ctx, j.room, j.monolith, j.created);
    }
  }

  lemma LeaveStepPreserves(w: World, step: Step)
    requires Enabled(w, step)
    requires step.FrameHandled? || step.LeaveSent? || step.ClientSends? || step.UnloadSent?
    ensures Preserves(w.ctx, Next(w, step).ctx, true, true)
  {
    if step.FrameHandled? && w.links[step.c].queue[0].Close? {
      BeginLeavePreserves(w.ctx, step.c);
    } else if step.LeaveSent? && step.delivery.ChannelError? {
      RemoveMonolithPreserves(w.ctx, w.leaving[step.c]);
    } else {
      SamePreserves(w.ctx);
    }
  }

  lemma MonolithStepKeepsFresh(w: World, step: Step)
    requires Enabled(w, step) && Fresh(w)
    requires step.MonolithJoins? || step.MonolithLeaves? || step.RoomReported? || step.RoomDropped? || step.UnloadSent?
    ensures Fresh(Next(w, step))
  {
  }

  lemma ClientStepKeepsFresh(w: World, step: Step)
    requires Enabled(w, step) && Fresh(w)
    requires step.ClientArrives? || step.JoinCommitted? || step.ClientSends? || step.FrameHandled?
    ensures Fresh(Next(w, step))
  {
  }

  lemma SendStepKeepsFresh(w: World, step: Step)
    requires Enabled(w, step) && Fresh(w)
    requires step.JoinSent? || step.LeaveSent?
    ensures Fresh(Next(w, step))
  {
  }

  lemma EveryStepOk(w: World, step: Step)
    requires Enabled(w, step) && Fresh(w)
    ensures StepOk(w, step)
  {
    if step.JoinSent? {
      JoinSentPreserves(w, step);
      SendStepKeepsFresh(w, step);
    } else if step.LeaveSent? {
      LeaveStepPreserves(w, step);
      SendStepKeepsFresh(w, step);
    } else if step.ClientArrives? || step.JoinCommitted? {
      JoinStepPreserves(w, step);
      ClientStepKeepsFresh(w, step);
    } else if step.ClientSends? || step.FrameHandled? {
      LeaveStepPreserves(w, step);
      ClientStepKeepsFresh(w, step);
    } else if step.UnloadSent? {
      LeaveStepPreserves(w, step);
      MonolithStepKeepsFresh(w, step);
    } else {
      MonolithStepPreserves(w, step);
      MonolithStepKeepsFresh(w, step);
    }
  }

  // ---------------------------------------------------------------- what every run keeps

  /** Over any interleaving, every locator names a registered monolith that has the room, at
      every point of the run, exactly when every report in it is guarded. */
  lemma {:induction false} RunLocatorsSoundExactly(w: World, steps: seq<Step>)
    requires Admissible(w, steps) && Fresh(w) && LocatorsSound(w.ctx)
    ensures AlwaysLocatorsSound(w, steps) <==> ReportsGuarded(w, steps)
    ensures ReportsGuarded(w, steps) ==> LocatorsSound(After(w, steps).ctx)
    decreases |steps|
  {
    if steps != [] {
      var v := Next(w, steps[0]);
      EveryStepOk(w, steps[0]);
      if LocatorsSound(v.ctx) {
        RunLocatorsSoundExactly(v, steps[1..]);
      }
    }
  }

  /** Over any interleaving, the map of located rooms and the monoliths' room tables agree at
      every point of the run exactly when every report and every join commit in it is guarded. */
  lemma {:induction false} RunCoupledExactly(w: World, steps: seq<Step>)
    requires Admissible(w, steps) && Fresh(w) && Coupled(w.ctx)
    ensures AlwaysCoupled(w, steps) <==> ReportsGuarded(w, steps) && JoinsGuarded(w, steps)
    decreases |steps|
  {
    if steps != [] {
      var v := Next(w, steps[0]);
      EveryStepOk(w, steps[0]);
      if Coupled(v.ctx) {
        RunCoupledExactly(v, steps[1..]);
      }
    }
  }

  /** Over any interleaving, whatever joins are committed late, no beginning join can meet a missing
      monolith or room at any point of the run exactly when every report in it is guarded. */
  lemma {:induction false} RunPanicFreeExactly(w: World, steps: seq<Step>)
    requires Admissible(w, steps) && Fresh(w) && LocatorsSound(w.ctx)
    ensures AlwaysPanicFree(w, steps) <==> ReportsGuarded(w, steps)
    decreases |steps|
  {
    PanicFreeMeansSound(w.ctx);
    if steps != [] {
      var v := Next(w, steps[0]);
      EveryStepOk(w, steps[0]);
      PanicFreeMeansSound(v.ctx);
      if LocatorsSound(v.ctx) {
        RunPanicFreeExactly(v, steps[1..]);
      }
    }
  }

  /** Placement fails in a state exactly by a late commit. */
  lemma StepPlacesExactly(w: World, step: Step)
    requires Enabled(w, step) && Fresh(w) && TablesSound(w.ctx) && Placed(w.ctx)
    ensures PlacedWhereLocated(Next(w, step).ctx) <==> JoinGuard(w, step)
    ensures JoinGuard(w, step) ==> TablesSound(Next(w, step).ctx) && Placed(Next(w, step).ctx)
  {
    EveryStepOk(w, step);
    if JoinGuard(w, step) {
      SoundTablesPlace(Next(w, step).ctx);
    } else {
      LateCommitMisplaces(w.ctx, step.c, w.joins[step.c].room, w.joins[step.c].monolith);
    }
  }

  /** Over any interleaving, whatever is reported by whom, every listed client is registered with
      that room and the room is located there, at every point of the run, exactly when every join
      commit in it is guarded. */
  lemma {:induction false} RunPlacedExactly(w: World, steps: seq<Step>)
    requires Admissible(w, steps) && Fresh(w) && TablesSound(w.ctx) && Placed(w.ctx)
    ensures AlwaysPlaced(w, steps) <==> JoinsGuarded(w, steps)
    ensures JoinsGuarded(w, steps) ==> TablesSound(After(w, steps).ctx) && Placed(After(w, steps).ctx)
    decreases |steps|
  {
    SoundTablesPlace(w.ctx);
    if steps != [] {
      var v := Next(w, steps[0]);
      StepPlacesExactly(w, steps[0]);
      EveryStepOk(w, steps[0]);
      if JoinGuard(w, steps[0]) {
        RunPlacedExactly(v, steps[1..]);
      }
    }
  }

  /** In every run from an empty balancer with guarded commits, each client is on at most one
      room's list in the whole snapshot; it is there once, it is registered with that room, and the
      room is located on that monolith. */
  lemma RunPlacesOnce(own: Region, steps: seq<Step>, c: ClientId, i: MonolithId, q: RoomName,
                      j: MonolithId, r: RoomName)
    requires Admissible(Start(own), steps) && JoinsGuarded(Start(own), steps)
    ensures var s := After(Start(own), steps).ctx;
            Listed(s, i, q, c) && Listed(s, j, r, c) ==>
              && i == j && q == r
              && c in s.clients && s.clients[c] == r && LocatedOn(s, r, i)
              && multiset(s.monoliths[i].rooms[q].clients)[c] == 1
  {
    RunPlacedExactly(Start(own), steps);
    var s := After(Start(own), steps).ctx;
    SoundTablesPlace(s);
    if Listed(s, i, q, c) && Listed(s, j, r, c) {
      PlacedOnce(s, c, i, q, j, r);
      assert Holds(s, i, q);
    }
  }

  /** In every run whatever, guarded or not, each region's list holds exactly the registered
      monoliths of the region, once each. */
  lemma {:induction false} RunKeepsIndex(w: World, steps: seq<Step>)
    requires Admissible(w, steps) && Fresh(w) && IndexAgrees(w.ctx)
    ensures IndexAgrees(After(w, steps).ctx)
    decreases |steps|
  {
    if steps != [] {
      EveryStepOk(w, steps[0]);
      RunKeepsIndex(Next(w, steps[0]), steps[1..]);
    }
  }
}
