/** Runs in which a room is reported and unloads are sent, in any interleaving: who is told. */
module UnloadDelivery {
  import opened RoomNames
  import opened BalancerState
  import opened BalancerInvariants
  import opened BalancerWorld
  import opened LoadConflicts

  /** The monolith has been told to unload the room, or is about to be. */
  ghost predicate Due(w: World, m: MonolithId, r: RoomName) {
    (m, r) in w.unloads || Unload(r) in Outbox(w, m)
  }

  /** Reports of the room, and unloads that are delivered. */
  predicate ReportsOrSends(r: RoomName, steps: seq<Step>) {
    forall i :: 0 <= i < |steps| ==> ReportOrSend(r, steps[i])
  }

  predicate ReportOrSend(r: RoomName, step: Step) {
    (step.RoomReported? && step.room == r) || (step.UnloadSent? && step.delivered)
  }

  function ClaimOf(step: Step): seq<Claim> {
    if step.RoomReported? then [Claim(step.id, step.epoch, step.metadata)] else []
  }

  function ClaimsOf(steps: seq<Step>): seq<Claim> {
    if steps == [] then [] else ClaimOf(steps[0]) + ClaimsOf(steps[1..])
  }

  lemma ReportMakesDue(w: World, r: RoomName, c: Claim, m: MonolithId)
    ensures var step := RoomReported(r, c.metadata, c.monolith, c.epoch);
            Due(Next(w, step), m, r) <==> Due(w, m, r) || m in UnloadFor(w.ctx, r, c)
  {
  }

  lemma SendKeepsDue(w: World, i: nat, m: MonolithId, r: RoomName)
    requires i < |w.unloads|
    ensures Due(NextUnloadSent(w, i, true), m, r) <==> Due(w, m, r)
  {
    var (id, room) := w.unloads[i];
    var v := NextUnloadSent(w, i, true);
    assert w.unloads == w.unloads[..i] + [w.unloads[i]] + w.unloads[i + 1..];
    assert (m, r) in w.unloads <==> (m, r) in v.unloads || (m, r) == (id, room);
    assert Unload(r) in Outbox(v, m) <==> Unload(r) in Outbox(w, m) || (m, r) == (id, room) by {
      assert Outbox(v, m) == Outbox(w, m) + if m == id then [Unload(room)] else [];
    }
  }

  /** The world is where the claims lead from `s`, and the monolith is due exactly if it was before
      or the claims make it so. */
  ghost predicate Reached(s: State, done: seq<Claim>, w: World, r: RoomName, m: MonolithId, before: bool) {
    w.ctx == Settle(s, r, done) && (Due(w, m, r) <==> before || m in Unloads(s, r, done))
  }

  lemma ClaimsFrom(done: seq<Claim>, steps: seq<Step>)
    requires steps != []
    ensures done + ClaimOf(steps[0]) + ClaimsOf(steps[1..]) == done + ClaimsOf(steps)
  {
    var a, b := ClaimOf(steps[0]), ClaimsOf(steps[1..]);
    assert ClaimsOf(steps) == a + b;
    assert done + a + b == done + (a + b);
  }

  lemma StepMakesDue(s: State, done: seq<Claim>, w: World, step: Step, r: RoomName, m: MonolithId, before: bool)
    requires Enabled(w, step) && ReportOrSend(r, step)
    requires Reached(s, done, w, r, m, before)
    ensures Reached(s, done + ClaimOf(step), Next(w, step), r, m, before)
  {
    if step.RoomReported? {
      var c := Claim(step.id, step.epoch, step.metadata);
      ReportMakesDue(w, r, c, m);
      SettleOneMore(s, r, done, c);
    } else {
      SendKeepsDue(w, step.index, m, r);
      assert done + ClaimOf(step) == done;
    }
  }

  /** Whatever the interleaving of reports and sends, the room is settled by the reports in their
      order, and exactly the monoliths that the settlement names are told or about to be. */
  lemma {:induction false} RunMakesDue(s: State, done: seq<Claim>, w: World, steps: seq<Step>, r: RoomName,
                                       m: MonolithId, before: bool)
    requires Admissible(w, steps) && ReportsOrSends(r, steps)
    requires Reached(s, done, w, r, m, before)
    ensures Reached(s, done + ClaimsOf(steps), After(w, steps), r, m, before)
    decreases |steps|
  {
    if steps == [] {
      assert done + ClaimsOf(steps) == done;
    } else {
      var step, rest := steps[0], steps[1..];
      var v := Next(w, step);
      StepMakesDue(s, done, w, step, r, m, before);
      RunMakesDue(s, done + ClaimOf(step), v, rest, r, m, before);
      ClaimsFrom(done, steps);
    }
  }

  /** When every unload has been delivered, exactly the monoliths that come late or are replaced in
      the order of the reports have been told; and the one on which a join had placed the room, if
      another one was the first to report it. */
  lemma ToldExactly(w: World, steps: seq<Step>, r: RoomName, m: MonolithId)
    requires Admissible(w, steps) && ReportsOrSends(r, steps) && ClaimsOf(steps) != []
    requires OwnerThere(w.ctx, r) && Unreported(w.ctx, r) && !Due(w, m, r)
    requires Genuine(w.ctx, ClaimsOf(steps)) && OneEpochEach(ClaimsOf(steps))
    requires After(w, steps).unloads == []
    ensures Unload(r) in Outbox(After(w, steps), m) <==>
            Told(ClaimsOf(steps), m) || (LocatedOn(w.ctx, r, m) && ClaimsOf(steps)[0].monolith != m)
  {
    assert [] + ClaimsOf(steps) == ClaimsOf(steps);
    RunMakesDue(w.ctx, [], w, steps, r, m, false);
    UnloadsExactly(w.ctx, r, ClaimsOf(steps), m);
  }

  /** When moreover no two monoliths share an epoch, those are the monoliths that reported the room
      and do not own it. */
  lemma LosersAreTold(w: World, steps: seq<Step>, r: RoomName, m: MonolithId)
    requires Admissible(w, steps) && ReportsOrSends(r, steps) && ClaimsOf(steps) != []
    requires OwnerThere(w.ctx, r) && Unreported(w.ctx, r) && !Due(w, m, r)
    requires Genuine(w.ctx, ClaimsOf(steps)) && EpochsIdentify(ClaimsOf(steps))
    requires After(w, steps).unloads == []
    ensures r in After(w, steps).ctx.locators
    ensures Unload(r) in Outbox(After(w, steps), m) <==>
            || (Claims(ClaimsOf(steps), m) && m != After(w, steps).ctx.locators[r].monolith)
            || (LocatedOn(w.ctx, r, m) && ClaimsOf(steps)[0].monolith != m)
  {
    assert [] + ClaimsOf(steps) == ClaimsOf(steps);
    RunMakesDue(w.ctx, [], w, steps, r, m, false);
    LosersUnload(w.ctx, r, ClaimsOf(steps), m);
  }
}
