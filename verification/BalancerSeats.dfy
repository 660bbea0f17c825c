/** Which list a client is on from the moment its join is committed, over any run. */
module BalancerSeats {
  import opened Options
  import opened RoomNames
  import opened BalancerState
  import opened BalancerInvariants
  import opened BalancerWorld
  import opened BalancerSections

  /** The client is registered with the room, the room is located on that monolith, and the client is
      on its list there. */
  ghost predicate Seated(s: State, id: MonolithId, r: RoomName, c: ClientId) {
    Listed(s, id, r, c) && c in s.clients && s.clients[c] == r && LocatedOn(s, r, id)
  }

  /** The client's own close is handled. */
  predicate Closes(w: World, step: Step, c: ClientId)
    requires Enabled(w, step)
  {
    step.FrameHandled? && step.c == c && w.links[c].queue[0].Close?
  }

  // ---------------------------------------------------------------- one section

  lemma ReportKeepsSeat(s: State, q: RoomName, md: Metadata, k: MonolithId, e: Epoch,
                        id: MonolithId, r: RoomName, c: ClientId)
    requires Seated(s, id, r, c)
    ensures Seated(Report(s, q, md, k, e).0, id, r, c) <==> LocatedOn(Report(s, q, md, k, e).0, r, id)
  {
  }

  lemma BeginJoinKeepsSeat(s: State, q: RoomName, choice: Option<MonolithId>, id: MonolithId, r: RoomName, c: ClientId)
    requires Seated(s, id, r, c)
    ensures Seated(BeginJoin(s, q, choice).0, id, r, c)
  {
  }

  lemma CommitJoinKeepsSeat(s: State, d: ClientId, q: RoomName, k: MonolithId,
                            id: MonolithId, r: RoomName, c: ClientId)
    requires Seated(s, id, r, c) && d != c
    ensures Seated(CommitJoin(s, d, q, k).0, id, r, c)
  {
  }

  lemma RemoveRoomKeepsSeat(s: State, q: RoomName, k: MonolithId, id: MonolithId, r: RoomName, c: ClientId)
    requires Seated(s, id, r, c)
    ensures Seated(RemoveRoom(s, q, k), id, r, c) <==> LocatedOn(RemoveRoom(s, q, k), r, id)
  {
  }

  lemma RemoveMonolithKeepsSeat(s: State, k: MonolithId, id: MonolithId, r: RoomName, c: ClientId)
    requires Seated(s, id, r, c)
    ensures Seated(RemoveMonolith(s, k), id, r, c) <==> LocatedOn(RemoveMonolith(s, k), r, id)
  {
    RemoveMonolithForgets(s, k, id, r, c);
  }

  lemma UndoJoinKeepsSeat(s: State, j: PendingJoin, delivery: Delivery, id: MonolithId, r: RoomName, c: ClientId)
    requires Seated(s, id, r, c)
    ensures Seated(UndoJoin(s, j, delivery), id, r, c) <==> LocatedOn(UndoJoin(s, j, delivery), r, id)
  {
    var t := RollBackJoin(s, j.room, j.monolith, j.created);
    RemoveRoomKeepsSeat(s, j.room, j.monolith, id, r, c);
    RemoveMonolithForgets(t, j.monolith, id, r, c);
    if LocatedOn(t, r, id) {
      RemoveMonolithKeepsSeat(t, j.monolith, id, r, c);
    }
  }

  lemma BeginLeaveKeepsSeat(s: State, d: ClientId, id: MonolithId, r: RoomName, c: ClientId)
    requires Seated(s, id, r, c)
    ensures Seated(BeginLeave(s, d).0, id, r, c) <==> d != c
    ensures LocatedOn(BeginLeave(s, d).0, r, id)
  {
    BeginLeaveUnlists(s, d, id, r, c);
  }

  // ---------------------------------------------------------------- one step

  lemma MonolithStepKeepsSeat(w: World, step: Step, id: MonolithId, r: RoomName, c: ClientId)
    requires Enabled(w, step) && Fresh(w) && Seated(w.ctx, id, r, c)
    requires step.MonolithJoins? || step.MonolithLeaves? || step.RoomReported? || step.RoomDropped? || step.UnloadSent?
    ensures Seated(Next(w, step).ctx, id, r, c) <==> LocatedOn(Next(w, step).ctx, r, id)
  {
    match step
    case MonolithJoins(k, region) => AddMonolithAddsOnly(w.ctx, k, region, region);
    case MonolithLeaves(k) => RemoveMonolithKeepsSeat(w.ctx, k, id, r, c);
    case RoomReported(q, md, k, e) => ReportKeepsSeat(w.ctx, q, md, k, e, id, r, c);
    case RoomDropped(q, k) => RemoveRoomKeepsSeat(w.ctx, q, k, id, r, c);
    case UnloadSent(_, _) =>
  }

  lemma JoinStepKeepsSeat(w: World, step: Step, id: MonolithId, r: RoomName, c: ClientId)
    requires Enabled(w, step) && Fresh(w) && Seated(w.ctx, id, r, c)
    requires step.ClientArrives? || step.JoinSent? || step.JoinCommitted?
    ensures Seated(Next(w, step).ctx, id, r, c) <==> LocatedOn(Next(w, step).ctx, r, id)
  {
    match step
    case ClientArrives(_, q, choice) => BeginJoinKeepsSeat(w.ctx, q, choice, id, r, c);
    case JoinSent(d, delivery) =>
      UndoJoinKeepsSeat(w.ctx, w.joins[d], delivery, id, r, c);
    case JoinCommitted(d, _) => CommitJoinKeepsSeat(w.ctx, d, w.joins[d].room, w.joins[d].monolith, id, r, c);
  }

  lemma LeaveStepKeepsSeat(w: World, step: Step, id: MonolithId, r: RoomName, c: ClientId)
    requires Enabled(w, step) && Seated(w.ctx, id, r, c)
    requires step.ClientSends? || step.FrameHandled? || step.LeaveSent?
    ensures Seated(Next(w, step).ctx, id, r, c) <==> LocatedOn(Next(w, step).ctx, r, id) && !Closes(w, step, c)
  {
    match step
    case ClientSends(_, _) =>
    case FrameHandled(d, _) => BeginLeaveKeepsSeat(w.ctx, d, id, r, c);
    case LeaveSent(d, _) => RemoveMonolithKeepsSeat(w.ctx, w.leaving[d], id, r, c);
  }

  /** A step takes a seated client off its list exactly if it moves the room or handles the client's
      own close. */
  lemma StepKeepsSeatExactly(w: World, step: Step, id: MonolithId, r: RoomName, c: ClientId)
    requires Enabled(w, step) && Fresh(w) && Seated(w.ctx, id, r, c)
    ensures Seated(Next(w, step).ctx, id, r, c) <==> LocatedOn(Next(w, step).ctx, r, id) && !Closes(w, step, c)
  {
    if step.ClientSends? || step.FrameHandled? || step.LeaveSent? {
      LeaveStepKeepsSeat(w, step, id, r, c);
    } else if step.ClientArrives? || step.JoinSent? || step.JoinCommitted? {
      JoinStepKeepsSeat(w, step, id, r, c);
    } else {
      MonolithStepKeepsSeat(w, step, id, r, c);
    }
  }

  // ---------------------------------------------------------------- whole runs

  ghost predicate AlwaysSeated(w: World, steps: seq<Step>, id: MonolithId, r: RoomName, c: ClientId)
    requires Admissible(w, steps)
    decreases |steps|
  {
    Seated(w.ctx, id, r, c) && (steps != [] ==> AlwaysSeated(Next(w, steps[0]), steps[1..], id, r, c))
  }

  ghost predicate AlwaysLocated(w: World, steps: seq<Step>, id: MonolithId, r: RoomName)
    requires Admissible(w, steps)
    decreases |steps|
  {
    LocatedOn(w.ctx, r, id) && (steps != [] ==> AlwaysLocated(Next(w, steps[0]), steps[1..], id, r))
  }

  ghost predicate NeverCloses(w: World, steps: seq<Step>, c: ClientId)
    requires Admissible(w, steps)
    decreases |steps|
  {
    steps == [] || (!Closes(w, steps[0], c) && NeverCloses(Next(w, steps[0]), steps[1..], c))
  }

  /** Over any interleaving, a seated client stays on its list at every point exactly if the room stays
      located where it is and the client's close is not handled. */
  lemma {:induction false} RunSeatedExactly(w: World, steps: seq<Step>, id: MonolithId, r: RoomName, c: ClientId)
    requires Admissible(w, steps) && Fresh(w) && Seated(w.ctx, id, r, c)
    ensures AlwaysSeated(w, steps, id, r, c) <==> AlwaysLocated(w, steps, id, r) && NeverCloses(w, steps, c)
    decreases |steps|
  {
    if steps != [] {
      var v := Next(w, steps[0]);
      StepKeepsSeatExactly(w, steps[0], id, r, c);
      EveryStepOk(w, steps[0]);
      if Seated(v.ctx, id, r, c) {
        RunSeatedExactly(v, steps[1..], id, r, c);
      } else if steps[1..] == [] {
        assert AlwaysLocated(v, steps[1..], id, r) <==> LocatedOn(v.ctx, r, id);
      }
    }
  }

  /** A commit seats its client exactly if the monolith is registered and the room is located there. */
  lemma CommitSeatsExactly(w: World, c: ClientId, linkTaken: bool)
    requires Enabled(w, JoinCommitted(c, linkTaken)) && Fresh(w)
    ensures var j := w.joins[c];
            Seated(Next(w, JoinCommitted(c, linkTaken)).ctx, j.monolith, j.room, c) <==>
            j.monolith in w.ctx.monoliths && LocatedOn(w.ctx, j.room, j.monolith)
  {
    var j := w.joins[c];
    if j.monolith in w.ctx.monoliths {
      CommitJoinLists(w.ctx, c, j.room, j.monolith);
    }
  }

  /** The client gets a channel to the monolith exactly if that is registered at the commit and the
      client's own task still waits. */
  lemma CommitLinksExactly(w: World, c: ClientId, linkTaken: bool)
    requires Enabled(w, JoinCommitted(c, linkTaken))
    ensures var j := w.joins[c];
            var v := Next(w, JoinCommitted(c, linkTaken));
            && c !in v.joins
            && v.links == (if j.monolith in w.ctx.monoliths && linkTaken
                           then w.links[c := Link(j.monolith, [], false)] else w.links)
  {
  }

  /** From its commit on, over any interleaving, a client is on the list of the monolith that was told
      of its join exactly if that monolith is registered at the commit, the room is located there from
      then on, and the client's close is not handled. */
  lemma CommittedClientStaysListed(w: World, c: ClientId, linkTaken: bool, steps: seq<Step>)
    requires Enabled(w, JoinCommitted(c, linkTaken)) && Fresh(w)
    requires Admissible(Next(w, JoinCommitted(c, linkTaken)), steps)
    ensures var j := w.joins[c];
            var v := Next(w, JoinCommitted(c, linkTaken));
            AlwaysSeated(v, steps, j.monolith, j.room, c) <==>
            j.monolith in w.ctx.monoliths && AlwaysLocated(v, steps, j.monolith, j.room) && NeverCloses(v, steps, c)
  {
    var j := w.joins[c];
    var v := Next(w, JoinCommitted(c, linkTaken));
    CommitSeatsExactly(w, c, linkTaken);
    EveryStepOk(w, JoinCommitted(c, linkTaken));
    CommitKeepsLocators(w.ctx, c, j.room, j.monolith);
    if Seated(v.ctx, j.monolith, j.room, c) {
      RunSeatedExactly(v, steps, j.monolith, j.room, c);
    }
  }

  lemma CommitKeepsLocators(s: State, c: ClientId, r: RoomName, id: MonolithId)
    ensures CommitJoin(s, c, r, id).0.locators == s.locators
  {
  }

  // ---------------------------------------------------------------- what steps do at least

  /** A monolith that joins is registered, one that leaves is not, and a room that it drops is gone. */
  lemma MonolithStepsTakeEffect(w: World, id: MonolithId, region: Region, r: RoomName)
    ensures Enabled(w, MonolithJoins(id, region)) ==>
              id in Next(w, MonolithJoins(id, region)).ctx.monoliths &&
              id in Next(w, MonolithJoins(id, region)).seenMonoliths
    ensures id !in Next(w, MonolithLeaves(id)).ctx.monoliths
    ensures !LocatedOn(Next(w, MonolithLeaves(id)).ctx, r, id)
    ensures !Holds(Next(w, RoomDropped(r, id)).ctx, id, r)
    ensures id in w.ctx.monoliths ==> !LocatedOn(Next(w, RoomDropped(r, id)).ctx, r, id)
  {
  }

  /** What a client sends is handled in order; a text is told to the monolith of its channel, and with a
      close the client is registered no more. */
  lemma FramesAreHandledInOrder(w: World, c: ClientId, frame: Frame, relayed: bool)
    ensures Enabled(w, ClientSends(c, frame)) ==>
              var v := Next(w, ClientSends(c, frame));
              && c in v.links && v.links[c].queue == w.links[c].queue + [frame]
              && v.links[c].monolith == w.links[c].monolith && v.ctx == w.ctx && v.outbox == w.outbox
    ensures Enabled(w, FrameHandled(c, relayed)) ==>
              var v := Next(w, FrameHandled(c, relayed));
              var id := w.links[c].monolith;
              && c in v.links && [w.links[c].queue[0]] + v.links[c].queue == w.links[c].queue
              && (w.links[c].queue[0].Text? ==>
                    v.ctx == w.ctx && Outbox(v, id) == Outbox(w, id) + if relayed then [ClientMsg(c)] else [])
              && (w.links[c].queue[0].Close? ==> c !in v.ctx.clients && v.outbox == w.outbox)
  {
  }

  // ---------------------------------------------------------------- where a join is sent, and when it fails

  /** The join is sent to the monolith on which the room is located and which has it: the one that had
      it before, or the selected one, which got it then. */
  lemma JoinFollowsLocator(w: World, c: ClientId, room: RoomName, choice: Option<MonolithId>)
    requires Enabled(w, ClientArrives(c, room, choice)) && c !in w.joins
    ensures var v := Next(w, ClientArrives(c, room, choice));
            c in v.joins ==>
              && LocatedOn(v.ctx, room, v.joins[c].monolith) && Holds(v.ctx, v.joins[c].monolith, room)
              && v.joins[c].room == room && !v.joins[c].told
              && c in v.home && v.home[c] == v.joins[c].monolith
              && (room in w.ctx.locators ==> LocatedOn(w.ctx, room, v.joins[c].monolith) && v.ctx == w.ctx)
              && (room !in w.ctx.locators ==> choice == Some(v.joins[c].monolith))
  {
  }

  lemma JoinIsSentHome(w: World, c: ClientId)
    requires Enabled(w, JoinSent(c, Delivered))
    ensures var v := Next(w, JoinSent(c, Delivered));
            && Outbox(v, w.joins[c].monolith) == Outbox(w, w.joins[c].monolith) + [Join(w.joins[c].room, c)]
            && (forall m :: m != w.joins[c].monolith ==> Outbox(v, m) == Outbox(w, m))
            && v.ctx == w.ctx && c in v.joins && v.joins[c] == w.joins[c].(told := true)
  {
  }

  /** A join whose message cannot be encoded leaves the balancer as it was; one whose message does not
      get through leaves it as it was without that monolith. */
  lemma FailedJoinIsTakenBack(w: World, c: ClientId, room: RoomName, choice: Option<MonolithId>, delivery: Delivery)
    requires Enabled(w, ClientArrives(c, room, choice)) && c !in w.joins && !delivery.Delivered?
    ensures var v := Next(w, ClientArrives(c, room, choice));
            c in v.joins ==>
              var u := Next(v, JoinSent(c, delivery));
              && c !in u.joins && u.outbox == w.outbox
              && u.ctx == if delivery.EncodeError? then w.ctx else RemoveMonolith(w.ctx, v.joins[c].monolith)
  {
    if BeginJoin(w.ctx, room, choice).1.Started? {
      JoinIsTakenBack(w.ctx, room, choice);
    }
  }

  /** A leave that does not get through costs the monolith its registration; one that cannot be encoded
      costs nothing. */
  lemma FailedLeave(w: World, c: ClientId, delivery: Delivery)
    requires Enabled(w, LeaveSent(c, delivery)) && !delivery.Delivered?
    ensures var v := Next(w, LeaveSent(c, delivery));
            && c !in v.leaving && v.outbox == w.outbox
            && (w.leaving[c] in v.ctx.monoliths <==> w.leaving[c] in w.ctx.monoliths && delivery.EncodeError?)
            && (delivery.EncodeError? ==> v.ctx == w.ctx)
            && (delivery.ChannelError? ==> v.ctx == RemoveMonolith(w.ctx, w.leaving[c]))
  {
  }
}
