/** What a monolith is told about one client, in order, over any run of the balancer. */
module BalancerSession {
  import opened Options
  import opened BalancerState
  import opened BalancerInvariants
  import opened BalancerWorld

  predicate Concerns(msg: Msg, c: ClientId) {
    match msg
    case Join(_, d) => d == c
    case Leave(d) => d == c
    case ClientMsg(d) => d == c
    case Unload(_) => false
  }

  /** The messages about one client. */
  function About(msgs: seq<Msg>, c: ClientId): seq<Msg> {
    if msgs == [] then []
    else About(msgs[..|msgs| - 1], c) + (if Concerns(msgs[|msgs| - 1], c) then [msgs[|msgs| - 1]] else [])
  }

  lemma AboutDelivered(w: World, id: MonolithId, msg: Msg, m: MonolithId, c: ClientId)
    ensures var after := Delivering(w, id, msg);
            About(if m in after then after[m] else [], c) ==
            About(Outbox(w, m), c) + if m == id && Concerns(msg, c) then [msg] else []
  {
    var box := Outbox(w, m);
    assert (box + [msg])[..|box|] == box;
  }

  function Told(w: World, m: MonolithId, c: ClientId): seq<Msg> {
    About(Outbox(w, m), c)
  }

  predicate EndsInLeave(msgs: seq<Msg>) {
    msgs != [] && msgs[|msgs| - 1].Leave?
  }

  /** A prefix of: the join, then any number of relayed messages, then at most one leave. */
  ghost predicate InOrder(msgs: seq<Msg>) {
    msgs != [] ==>
      && msgs[0].Join?
      && forall i :: 0 < i < |msgs| ==> msgs[i].ClientMsg? || (msgs[i].Leave? && i == |msgs| - 1)
  }

  /** Texts first; nothing but closes after the first close. */
  ghost predicate TextsThenCloses(frames: seq<Frame>) {
    forall i, j :: 0 <= i < j < |frames| && frames[i].Close? ==> frames[j].Close?
  }

  ghost predicate Idle(w: World, c: ClientId) {
    c !in w.joins && c !in w.links && c !in w.leaving && c !in w.departed
  }

  /** The invariant of one client's session, in every phase of it. */
  ghost predicate SessionOk(w: World, c: ClientId) {
    && (c !in w.seenClients ==> c !in w.home && c !in w.ctx.clients)
    && (c !in w.home ==> Idle(w, c) && forall m :: Told(w, m, c) == [])
    && (c in w.joins ==> JoiningOk(w, c))
    && (c in w.links ==> LinkedOk(w, c))
    && (c in w.departed ==> DepartedOk(w, c))
    && (c in w.leaving ==> c in w.departed)
    && (c in w.home ==> BoxesOk(w, c))
  }

  ghost predicate JoiningOk(w: World, c: ClientId) {
    && c in w.joins && c in w.home && w.home[c] == w.joins[c].monolith
    && c !in w.links && c !in w.departed && c !in w.ctx.clients
    && Told(w, w.home[c], c) == if w.joins[c].told then [Join(w.joins[c].room, c)] else []
  }

  ghost predicate LinkedOk(w: World, c: ClientId) {
    && c in w.links && c in w.home && w.home[c] == w.links[c].monolith && c !in w.joins
    && Told(w, w.home[c], c) != []
    && TextsThenCloses(w.links[c].queue)
    && (!w.links[c].hungUp ==> Close !in w.links[c].queue)
  }

  ghost predicate DepartedOk(w: World, c: ClientId) {
    && c in w.links && c !in w.ctx.clients
    && w.links[c].hungUp && Text !in w.links[c].queue
  }

  /** The home monolith is told in order, any other at most a leave; a leave is told at most
      once overall, and only after the client departed. */
  ghost predicate BoxesOk(w: World, c: ClientId)
    requires c in w.home
  {
    && InOrder(Told(w, w.home[c], c))
    && (forall m :: m != w.home[c] ==> Told(w, m, c) == [] || Told(w, m, c) == [Leave(c)])
    && (forall m :: EndsInLeave(Told(w, m, c)) ==> c in w.departed && c !in w.leaving)
    && (forall m, n :: EndsInLeave(Told(w, m, c)) && EndsInLeave(Told(w, n, c)) ==> m == n)
  }

  // ---------------------------------------------------------------- one step

  predicate StepOf(step: Step, c: ClientId) {
    match step
    case ClientArrives(d, _, _) => d == c
    case JoinSent(d, _) => d == c
    case JoinCommitted(d, _) => d == c
    case ClientSends(d, _) => d == c
    case FrameHandled(d, _) => d == c
    case LeaveSent(d, _) => d == c
    case _ => false
  }

  /** What a step newly tells about the client: the monolith and the message, if any. */
  function Telling(w: World, step: Step): Option<(MonolithId, Msg)>
    requires Enabled(w, step)
  {
    match step
    case JoinSent(c, delivery) =>
      if delivery.Delivered? then Some((w.joins[c].monolith, Join(w.joins[c].room, c))) else None
    case FrameHandled(c, relayed) =>
      if w.links[c].queue[0].Text? && relayed then Some((w.links[c].monolith, ClientMsg(c))) else None
    case LeaveSent(c, delivery) =>
      if delivery.Delivered? then Some((w.leaving[c], Leave(c))) else None
    case UnloadSent(i, delivered) =>
      if delivered then Some((w.unloads[i].0, Unload(w.unloads[i].1))) else None
    case _ => None
  }

  lemma StepOutbox(w: World, step: Step)
    requires Enabled(w, step)
    ensures Next(w, step).outbox ==
            match Telling(w, step)
            case None => w.outbox
            case Some((id, msg)) => Delivering(w, id, msg)
  {
  }

  /** What the monolith is newly told about the client. */
  function News(telling: Option<(MonolithId, Msg)>, m: MonolithId, c: ClientId): seq<Msg> {
    if telling.Some? && telling.value.0 == m && Concerns(telling.value.1, c) then [telling.value.1] else []
  }

  lemma StepTells(w: World, step: Step, m: MonolithId, c: ClientId)
    requires Enabled(w, step)
    ensures Told(Next(w, step), m, c) == Told(w, m, c) + News(Telling(w, step), m, c)
  {
    StepOutbox(w, step);
    match Telling(w, step)
    case None =>
    case Some((id, msg)) => AboutDelivered(w, id, msg, m, c);
  }

  /** The part of the client's session that is not in the outboxes. */
  ghost predicate PhaseUntouched(w: World, v: World, c: ClientId) {
    && (c in v.seenClients <==> c in w.seenClients) && (c in v.home <==> c in w.home)
    && (c in v.ctx.clients ==> c in w.ctx.clients)
    && (c in w.home ==> c in v.home && v.home[c] == w.home[c])
    && (c in v.joins <==> c in w.joins) && (c in w.joins ==> c in v.joins && v.joins[c] == w.joins[c])
    && (c in v.links <==> c in w.links) && (c in w.links ==> c in v.links && v.links[c] == w.links[c])
    && (c in v.leaving <==> c in w.leaving) && (c in v.departed <==> c in w.departed)
  }

  lemma UntouchedKeepsSession(w: World, v: World, c: ClientId)
    requires PhaseUntouched(w, v, c) && SessionOk(w, c)
    requires forall m :: Told(v, m, c) == Told(w, m, c)
    ensures SessionOk(v, c)
  {
  }

  lemma OtherJoinLeavesPhase(w: World, step: Step, c: ClientId)
    requires Enabled(w, step) && !StepOf(step, c)
    requires step.ClientArrives? || step.JoinSent? || step.JoinCommitted?
    ensures PhaseUntouched(w, Next(w, step), c)
  {
  }

  lemma OtherFrameLeavesPhase(w: World, step: Step, c: ClientId)
    requires Enabled(w, step) && !StepOf(step, c)
    requires step.ClientSends? || step.FrameHandled?
    ensures PhaseUntouched(w, Next(w, step), c)
  {
  }

  lemma OtherLeaveLeavesPhase(w: World, step: Step, c: ClientId)
    requires Enabled(w, step) && !StepOf(step, c)
    requires step.LeaveSent?
    ensures PhaseUntouched(w, Next(w, step), c)
  {
  }

  lemma MonolithStepLeavesPhase(w: World, step: Step, c: ClientId)
    requires Enabled(w, step)
    requires step.MonolithJoins? || step.MonolithLeaves? || step.RoomReported? || step.RoomDropped? || step.UnloadSent?
    ensures PhaseUntouched(w, Next(w, step), c)
  {
  }

  lemma OtherStepTellsNothing(w: World, step: Step, c: ClientId)
    requires Enabled(w, step) && !StepOf(step, c)
    ensures forall m :: Told(Next(w, step), m, c) == Told(w, m, c)
  {
    forall m
      ensures Told(Next(w, step), m, c) == Told(w, m, c)
    {
      StepTells(w, step, m, c);
    }
  }

  lemma OtherStepLeavesSession(w: World, step: Step, c: ClientId)
    requires Enabled(w, step) && !StepOf(step, c)
    ensures PhaseUntouched(w, Next(w, step), c)
    ensures forall m :: Told(Next(w, step), m, c) == Told(w, m, c)
  {
    OtherStepTellsNothing(w, step, c);
    if step.ClientArrives? || step.JoinSent? || step.JoinCommitted? {
      OtherJoinLeavesPhase(w, step, c);
    } else if step.ClientSends? || step.FrameHandled? {
      OtherFrameLeavesPhase(w, step, c);
    } else if step.LeaveSent? {
      OtherLeaveLeavesPhase(w, step, c);
    } else {
      MonolithStepLeavesPhase(w, step, c);
    }
  }

  lemma ArrivalKeepsSession(w: World, step: Step)
    requires Enabled(w, step) && step.ClientArrives? && SessionOk(w, step.c)
    ensures SessionOk(Next(w, step), step.c)
  {
    var v, c := Next(w, step), step.c;
    assert forall m :: Told(v, m, c) == Told(w, m, c) == [];
  }

  lemma TellingConcerns(w: World, step: Step, c: ClientId)
    requires Enabled(w, step) && StepOf(step, c)
    ensures Telling(w, step).Some? ==> Concerns(Telling(w, step).value.1, c)
  {
  }

  lemma TellsAll(w: World, step: Step, c: ClientId)
    requires Enabled(w, step) && StepOf(step, c)
    ensures Telling(w, step).None? ==> forall m :: Told(Next(w, step), m, c) == Told(w, m, c)
    ensures Telling(w, step).Some? ==>
              var (id, msg) := Telling(w, step).value;
              && Told(Next(w, step), id, c) == Told(w, id, c) + [msg]
              && forall m :: m != id ==> Told(Next(w, step), m, c) == Told(w, m, c)
  {
    TellingConcerns(w, step, c);
    var telling := Telling(w, step);
    var v := Next(w, step);
    forall m
      ensures Told(v, m, c) == if telling.Some? && telling.value.0 == m then Told(w, m, c) + [telling.value.1]
                               else Told(w, m, c)
    {
      StepTells(w, step, m, c);
    }
  }

  lemma JoinSentKeepsSession(w: World, step: Step)
    requires Enabled(w, step) && step.JoinSent? && SessionOk(w, step.c)
    ensures SessionOk(Next(w, step), step.c)
  {
    TellsAll(w, step, step.c);
  }

  lemma CommitKeepsSession(w: World, step: Step)
    requires Enabled(w, step) && step.JoinCommitted? && SessionOk(w, step.c)
    ensures SessionOk(Next(w, step), step.c)
  {
    TellsAll(w, step, step.c);
  }

  lemma ClientSendsKeepsSession(w: World, step: Step)
    requires Enabled(w, step) && step.ClientSends? && SessionOk(w, step.c)
    ensures SessionOk(Next(w, step), step.c)
  {
    TellsAll(w, step, step.c);
  }

  lemma TextHandledKeepsSession(w: World, step: Step)
    requires Enabled(w, step) && step.FrameHandled? && SessionOk(w, step.c)
    requires w.links[step.c].queue[0].Text?
    ensures SessionOk(Next(w, step), step.c)
  {
    TellsAll(w, step, step.c);
    var queue := w.links[step.c].queue;
    assert forall i :: 0 <= i < |queue| - 1 ==> queue[1..][i] == queue[i + 1];
  }

  lemma CloseHandledKeepsSession(w: World, step: Step)
    requires Enabled(w, step) && step.FrameHandled? && SessionOk(w, step.c)
    requires w.links[step.c].queue[0].Close?
    ensures SessionOk(Next(w, step), step.c)
  {
    TellsAll(w, step, step.c);
    var queue := w.links[step.c].queue;
    assert forall i :: 0 <= i < |queue| - 1 ==> queue[1..][i] == queue[i + 1];
  }

  lemma LeaveEndsOrder(msgs: seq<Msg>, c: ClientId)
    requires InOrder(msgs) && msgs != [] && !EndsInLeave(msgs)
    ensures InOrder(msgs + [Leave(c)])
  {
  }

  lemma LeaveSentFindsOrder(w: World, c: ClientId)
    requires c in w.leaving && SessionOk(w, c)
    ensures c in w.departed && c in w.links && c in w.home && c !in w.joins && Told(w, w.home[c], c) != []
    ensures InOrder(Told(w, w.home[c], c)) && forall m :: !EndsInLeave(Told(w, m, c))
    ensures forall m :: m != w.home[c] ==> Told(w, m, c) == []
  {
    assert EndsInLeave([Leave(c)]);
  }

  lemma LeaveSentKeepsBoxes(w: World, step: Step)
    requires Enabled(w, step) && step.LeaveSent? && SessionOk(w, step.c)
    ensures step.c in Next(w, step).home && BoxesOk(Next(w, step), step.c)
    ensures Told(Next(w, step), Next(w, step).home[step.c], step.c) != []
  {
    var c := step.c;
    TellsAll(w, step, c);
    LeaveSentFindsOrder(w, c);
    LeaveEndsOrder(Told(w, w.home[c], c), c);
    LeaveSentKeepsPhase(w, step);
  }

  lemma LeaveSentKeepsSession(w: World, step: Step)
    requires Enabled(w, step) && step.LeaveSent? && SessionOk(w, step.c)
    ensures SessionOk(Next(w, step), step.c)
  {
    LeaveSentFindsOrder(w, step.c);
    LeaveSentKeepsBoxes(w, step);
    LeaveSentKeepsPhase(w, step);
  }

  lemma LeaveSentKeepsPhase(w: World, step: Step)
    requires Enabled(w, step) && step.LeaveSent?
    ensures var c, v := step.c, Next(w, step);
            && v.seenClients == w.seenClients && v.home == w.home && v.joins == w.joins && v.links == w.links
            && v.departed == w.departed && v.leaving == w.leaving - {c} && v.ctx.clients.Keys <= w.ctx.clients.Keys
  {
  }

  lemma StepKeepsSession(w: World, step: Step, c: ClientId)
    requires Enabled(w, step) && SessionOk(w, c)
    ensures SessionOk(Next(w, step), c)
  {
    if !StepOf(step, c) {
      OtherStepLeavesSession(w, step, c);
      UntouchedKeepsSession(w, Next(w, step), c);
    } else {
      match step
      case ClientArrives(_, _, _) => ArrivalKeepsSession(w, step);
      case JoinSent(_, _) => JoinSentKeepsSession(w, step);
      case JoinCommitted(_, _) => CommitKeepsSession(w, step);
      case ClientSends(_, _) => ClientSendsKeepsSession(w, step);
      case FrameHandled(c, _) =>
        if w.links[c].queue[0].Text? {
          TextHandledKeepsSession(w, step);
        } else {
          CloseHandledKeepsSession(w, step);
        }
      case LeaveSent(_, _) => LeaveSentKeepsSession(w, step);
    }
  }

  lemma {:induction false} RunKeepsSession(w: World, steps: seq<Step>, c: ClientId)
    requires Admissible(w, steps) && SessionOk(w, c)
    ensures SessionOk(After(w, steps), c)
    decreases |steps|
  {
    if steps != [] {
      StepKeepsSession(w, steps[0], c);
      RunKeepsSession(Next(w, steps[0]), steps[1..], c);
    }
  }

  // ---------------------------------------------------------------- every run

  /** In every run from an empty balancer: the monolith a client's join was sent to is told
      about it in order; every other monolith is told nothing or a lone leave; and a leave is
      told at most once over all monoliths. */
  lemma RunTellsInOrder(own: Region, steps: seq<Step>, c: ClientId, m: MonolithId, n: MonolithId)
    requires Admissible(Start(own), steps)
    ensures var w := After(Start(own), steps);
            && (c in w.home && m == w.home[c] ==> InOrder(Told(w, m, c)))
            && (c !in w.home || m != w.home[c] ==> Told(w, m, c) == [] || Told(w, m, c) == [Leave(c)])
            && (EndsInLeave(Told(w, m, c)) && EndsInLeave(Told(w, n, c)) ==> m == n)
  {
    var w := Start(own);
    assert forall k :: Told(w, k, c) == [];
    RunKeepsSession(w, steps, c);
  }

  // ---------------------------------------------------------------- strangers

  /** Every monolith that was told of the client's leave was told of its join before. */
  ghost predicate AllInOrder(w: World, c: ClientId) {
    forall m :: InOrder(Told(w, m, c))
  }

  ghost predicate OnlyHomeTold(w: World, c: ClientId) {
    forall m :: c !in w.home || m != w.home[c] ==> Told(w, m, c) == []
  }

  lemma InOrderMeansOnlyHome(w: World, c: ClientId)
    requires SessionOk(w, c)
    ensures AllInOrder(w, c) <==> OnlyHomeTold(w, c)
  {
    assert !InOrder([Leave(c)]);
    if AllInOrder(w, c) {
      forall m | c !in w.home || m != w.home[c]
        ensures Told(w, m, c) == []
      {
        assert InOrder(Told(w, m, c));
      }
    } else {
      var m :| !InOrder(Told(w, m, c));
      assert Told(w, m, c) != [];
    }
  }

  /** The client's leave is delivered to another monolith than the one its join was sent to. */
  predicate TellsStranger(w: World, step: Step, c: ClientId) {
    && step.LeaveSent? && step.c == c && step.delivery.Delivered?
    && c in w.leaving && c in w.home && w.leaving[c] != w.home[c]
  }

  lemma StepTellsStranger(w: World, step: Step, c: ClientId)
    requires Enabled(w, step) && SessionOk(w, c) && OnlyHomeTold(w, c)
    ensures OnlyHomeTold(Next(w, step), c) <==> !TellsStranger(w, step, c)
  {
    var v := Next(w, step);
    StepKeepsSession(w, step, c);
    if !StepOf(step, c) {
      OtherStepLeavesSession(w, step, c);
    } else {
      TellsAll(w, step, c);
      HomeStays(w, step, c);
      if Telling(w, step).Some? {
        var (id, msg) := Telling(w, step).value;
        assert c in w.home;
        assert Told(v, id, c) != [];
        assert forall m :: m != id ==> Told(v, m, c) == Told(w, m, c);
      }
    }
  }

  lemma HomeStays(w: World, step: Step, c: ClientId)
    requires Enabled(w, step) && SessionOk(w, c) && StepOf(step, c)
    ensures c in w.home ==> c in Next(w, step).home && Next(w, step).home[c] == w.home[c]
    ensures Telling(w, step).Some? ==> c in w.home
    ensures Telling(w, step).Some? && !step.LeaveSent? ==> Telling(w, step).value.0 == w.home[c]
  {
  }

  ghost predicate NeverTellsStranger(w: World, steps: seq<Step>, c: ClientId)
    requires Admissible(w, steps)
    decreases |steps|
  {
    steps == [] || (!TellsStranger(w, steps[0], c) && NeverTellsStranger(Next(w, steps[0]), steps[1..], c))
  }

  ghost predicate AlwaysInOrder(w: World, steps: seq<Step>, c: ClientId)
    requires Admissible(w, steps)
    decreases |steps|
  {
    AllInOrder(w, c) && (steps != [] ==> AlwaysInOrder(Next(w, steps[0]), steps[1..], c))
  }

  /** From any state, every monolith that is told of a client's leave was told of its join, at every
      point of the run, exactly when no leave is delivered away from the client's home. */
  lemma {:induction false} InOrderUnlessStranger(w: World, steps: seq<Step>, c: ClientId)
    requires Admissible(w, steps) && SessionOk(w, c) && AllInOrder(w, c)
    ensures AlwaysInOrder(w, steps, c) <==> NeverTellsStranger(w, steps, c)
    decreases |steps|
  {
    if steps != [] {
      var v := Next(w, steps[0]);
      InOrderMeansOnlyHome(w, c);
      StepTellsStranger(w, steps[0], c);
      StepKeepsSession(w, steps[0], c);
      InOrderMeansOnlyHome(v, c);
      if AllInOrder(v, c) {
        InOrderUnlessStranger(v, steps[1..], c);
      }
    }
  }

  /** The client's close is handled while its room is located on a registered monolith other than
      the one that its connection belongs to. */
  predicate ClosedAway(w: World, step: Step, c: ClientId)
    requires Enabled(w, step)
  {
    && step.FrameHandled? && step.c == c && w.links[c].queue[0].Close? && c in w.ctx.clients
    && w.ctx.clients[c] in w.ctx.locators
    && w.ctx.locators[w.ctx.clients[c]].monolith in w.ctx.monoliths
    && w.ctx.locators[w.ctx.clients[c]].monolith != w.links[c].monolith
  }

  /** Whether the leave that is on its way, if there is one, goes away from home; afterwards. */
  predicate AwayAfter(w: World, step: Step, c: ClientId, away: bool)
    requires Enabled(w, step)
  {
    ClosedAway(w, step, c) || (away && !(step.LeaveSent? && step.c == c))
  }

  /** Somewhere in the run a leave is delivered whose close was handled away from home. */
  ghost predicate DeliversAway(w: World, steps: seq<Step>, c: ClientId, away: bool)
    requires Admissible(w, steps)
    decreases |steps|
  {
    steps != [] &&
    ((steps[0].LeaveSent? && steps[0].c == c && steps[0].delivery.Delivered? && away) ||
     DeliversAway(Next(w, steps[0]), steps[1..], c, AwayAfter(w, steps[0], c, away)))
  }

  predicate LeavesAway(w: World, c: ClientId) {
    c in w.leaving && c in w.home && w.leaving[c] != w.home[c]
  }

  lemma StepLeavesAway(w: World, step: Step, c: ClientId)
    requires Enabled(w, step) && SessionOk(w, c)
    ensures LeavesAway(Next(w, step), c) <==> AwayAfter(w, step, c, LeavesAway(w, c))
  {
    if !StepOf(step, c) {
      OtherStepLeavesSession(w, step, c);
      OtherStepLeavesLeaving(w, step, c);
    } else if step.FrameHandled? {
      CloseLeavesAway(w, step, c);
    } else {
      HomeStays(w, step, c);
      OwnStepLeavesLeaving(w, step, c);
    }
  }

  /** Only the close of a client and the end of its leave change where a leave goes. */
  ghost predicate SameLeaving(w: World, v: World, c: ClientId) {
    (c in w.leaving <==> c in v.leaving) && (c in w.leaving ==> v.leaving[c] == w.leaving[c])
  }

  predicate OfClient(step: Step) {
    step.ClientArrives? || step.JoinSent? || step.JoinCommitted? || step.ClientSends? || step.FrameHandled? ||
    step.LeaveSent?
  }

  lemma OtherClientLeavesLeaving(w: World, step: Step, c: ClientId)
    requires Enabled(w, step) && !StepOf(step, c) && OfClient(step)
    ensures SameLeaving(w, Next(w, step), c)
  {
  }

  lemma MonolithLeavesLeaving(w: World, step: Step, c: ClientId)
    requires Enabled(w, step) && !OfClient(step)
    ensures SameLeaving(w, Next(w, step), c)
  {
  }

  lemma OtherStepLeavesLeaving(w: World, step: Step, c: ClientId)
    requires Enabled(w, step) && !StepOf(step, c)
    ensures SameLeaving(w, Next(w, step), c)
  {
    if OfClient(step) {
      OtherClientLeavesLeaving(w, step, c);
    } else {
      MonolithLeavesLeaving(w, step, c);
    }
  }

  lemma OwnStepLeavesLeaving(w: World, step: Step, c: ClientId)
    requires Enabled(w, step) && StepOf(step, c) && !step.FrameHandled? && SessionOk(w, c)
    ensures c in Next(w, step).leaving <==> c in w.leaving && !step.LeaveSent?
    ensures c in Next(w, step).leaving ==> c in w.home && Next(w, step).leaving[c] == w.leaving[c]
  {
  }

  lemma CloseLeavesAway(w: World, step: Step, c: ClientId)
    requires Enabled(w, step) && step.FrameHandled? && step.c == c && SessionOk(w, c)
    ensures LeavesAway(Next(w, step), c) <==> ClosedAway(w, step, c)
    ensures !LeavesAway(w, c)
  {
  }

  lemma {:induction false} StrangersAreToldAway(w: World, steps: seq<Step>, c: ClientId)
    requires Admissible(w, steps) && SessionOk(w, c)
    ensures NeverTellsStranger(w, steps, c) <==> !DeliversAway(w, steps, c, LeavesAway(w, c))
    decreases |steps|
  {
    if steps != [] {
      StepLeavesAway(w, steps[0], c);
      StepKeepsSession(w, steps[0], c);
      StrangersAreToldAway(Next(w, steps[0]), steps[1..], c);
    }
  }

  /** Over any interleaving from an empty balancer, every monolith that is told of a client's leave was
      told of its join, at every point of the run, exactly when no leave is delivered whose close was
      handled while the room was located away from the client's connection. */
  lemma RunInOrderExactly(own: Region, steps: seq<Step>, c: ClientId)
    requires Admissible(Start(own), steps)
    ensures AlwaysInOrder(Start(own), steps, c) <==> !DeliversAway(Start(own), steps, c, false)
  {
    assert forall k :: Told(Start(own), k, c) == [];
    InOrderUnlessStranger(Start(own), steps, c);
    StrangersAreToldAway(Start(own), steps, c);
  }

  /** A registered client's leave is announced exactly where its room is located at the moment when
      its close is handled, if that monolith is registered; so it goes to its home exactly when the
      room still is there. */
  lemma LeaveFollowsLocator(w: World, c: ClientId, relayed: bool, m: MonolithId)
    requires Enabled(w, FrameHandled(c, relayed)) && w.links[c].queue[0].Close? && c in w.ctx.clients
    ensures var v := Next(w, FrameHandled(c, relayed));
            c in v.leaving && v.leaving[c] == m <==> LocatedOn(w.ctx, w.ctx.clients[c], m) && m in w.ctx.monoliths
  {
  }
}
