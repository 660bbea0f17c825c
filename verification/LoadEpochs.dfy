/** The shared counter that hands out load epochs. A load takes the next number in one atomic step
    and, if that number is large, sets the counter back to zero in a later one; other loads, on
    any server, come in between. */
module LoadEpochs {
  /** From this epoch on, a load resets the counter. */
  const RESET_AT: nat := 2147483640

  /** What the balancer uses for a room that nobody reported yet: the largest unsigned 32-bit
      number. */
  const PLACEHOLDER: nat := 4294967295

  /** The counter, the epochs of the loads in flight, and how many loads died that should have
      reset the counter, since it was last reset. */
  datatype System = System(counter: nat, inFlight: seq<nat>, died: nat)

  datatype Step =
    | Increment            // a load starts and takes the next epoch
    | Finish(index: nat)   // a load finishes, resetting the counter if its epoch is large
    | Die(index: nat)      // the server of a load crashes before that

  predicate Enabled(s: System, step: Step) {
    step.Increment? || step.index < |s.inFlight|
  }

  function Dropped(s: seq<nat>, i: nat): seq<nat>
    requires i < |s|
  {
    s[..i] + s[i + 1..]
  }

  function Next(s: System, step: Step): System
    requires Enabled(s, step)
  {
    match step
    case Increment => s.(counter := s.counter + 1, inFlight := s.inFlight + [s.counter + 1])
    case Finish(i) =>
      if s.inFlight[i] >= RESET_AT then System(0, Dropped(s.inFlight, i), 0)
      else s.(inFlight := Dropped(s.inFlight, i))
    case Die(i) =>
      s.(inFlight := Dropped(s.inFlight, i), died := s.died + if s.inFlight[i] >= RESET_AT then 1 else 0)
  }

  /** The state after a run; a step that is not enabled does not count. */
  function After(s: System, steps: seq<Step>): System {
    if steps == [] then s
    else
      var before := After(s, steps[..|steps| - 1]);
      var last := steps[|steps| - 1];
      if Enabled(before, last) then Next(before, last) else before
  }

  class EpochCounter {
    var value: nat

    constructor ()
      ensures value == 0
    {
      value := 0;
    }

    method Increment() returns (epoch: nat)
      modifies this
      ensures epoch == value == old(value) + 1
    {
      value := value + 1;
      epoch := value;
    }

    /** A load that nothing interrupts. */
    method AddRoom() returns (epoch: nat)
      modifies this
      ensures epoch == old(value) + 1
      ensures value == Next(Next(System(old(value), [], 0), Step.Increment), Finish(0)).counter
    {
      epoch := Increment();
      if epoch >= RESET_AT {
        value := 0;
      }
      assert [] + [epoch] == [epoch];
    }
  }

  // ---------------------------------------------------------------- the bound

  /** How many of the epochs are large. */
  function Large(epochs: seq<nat>): (n: nat)
    ensures n <= |epochs|
  {
    if epochs == [] then 0
    else Large(epochs[..|epochs| - 1]) + if epochs[|epochs| - 1] >= RESET_AT then 1 else 0
  }

  lemma {:induction false} LargeAdds(a: seq<nat>, b: seq<nat>)
    ensures Large(a + b) == Large(a) + Large(b)
    decreases |b|
  {
    if b == [] {
      assert a + b == a;
    } else {
      LargeAdds(a, b[..|b| - 1]);
      assert (a + b)[..|a + b| - 1] == a + b[..|b| - 1];
    }
  }

  lemma {:induction false} LargeDropped(epochs: seq<nat>, i: nat)
    requires i < |epochs|
    ensures Large(epochs) == Large(Dropped(epochs, i)) + if epochs[i] >= RESET_AT then 1 else 0
    decreases |epochs|
  {
    var front := epochs[..|epochs| - 1];
    var dropped := Dropped(epochs, i);
    if i < |front| {
      LargeDropped(front, i);
      assert dropped[..|dropped| - 1] == Dropped(front, i);
      assert dropped[|dropped| - 1] == epochs[|epochs| - 1];
    } else {
      assert dropped == front;
    }
  }

  /** Beyond the reset point, the counter is held back by the loads that still have to reset it or
      died before they could. */
  lemma NextCounterBounded(s: System, step: Step)
    requires Enabled(s, step) && s.counter < RESET_AT + Large(s.inFlight) + s.died
    ensures var t := Next(s, step);
            t.counter < RESET_AT + Large(t.inFlight) + t.died
  {
    match step
    case Increment =>
      LargeAdds(s.inFlight, [s.counter + 1]);
      assert [s.counter + 1][..0] == [];
    case Finish(i) => LargeDropped(s.inFlight, i);
    case Die(i) => LargeDropped(s.inFlight, i);
  }

  /** In every run, however the loads interleave. */
  lemma {:induction false} RunCounterBounded(s: System, steps: seq<Step>)
    requires s.counter < RESET_AT + Large(s.inFlight) + s.died
    ensures var t := After(s, steps);
            t.counter < RESET_AT + Large(t.inFlight) + t.died
    decreases |steps|
  {
    if steps != [] {
      var before := After(s, steps[..|steps| - 1]);
      RunCounterBounded(s, steps[..|steps| - 1]);
      if Enabled(before, steps[|steps| - 1]) {
        NextCounterBounded(before, steps[|steps| - 1]);
      }
    }
  }

  const START := System(0, [], 0)

  /** From an empty start, with at most `k` loads in flight or dead before a due reset, the counter never exceeds
      RESET_AT + k - 1; so for every `k` below 2^31 each epoch handed out is below the balancer's
      placeholder. */
  lemma EpochsStayBelowPlaceholder(steps: seq<Step>, k: nat)
    requires |After(START, steps).inFlight| + After(START, steps).died <= k
    ensures After(START, steps).counter <= RESET_AT + k - 1
    ensures k < 0x8000_0000 && steps != [] && steps[|steps| - 1].Increment? ==>
              After(START, steps).inFlight[|After(START, steps).inFlight| - 1] < PLACEHOLDER
  {
    RunCounterBounded(START, steps);
  }

  /** The bound is reached: `k` loads that start together when the counter stands right below the
      reset point take it to RESET_AT + k - 1. */
  lemma {:induction false} BoundIsReached(k: nat)
    ensures var t := After(System(RESET_AT - 1, [], 0), seq(k, _ => Increment));
            t.counter == RESET_AT + k - 1 && |t.inFlight| == k && t.died == 0
  {
    var s := System(RESET_AT - 1, [], 0);
    if k > 0 {
      BoundIsReached(k - 1);
      assert seq(k, _ => Increment)[..k - 1] == seq(k - 1, _ => Increment);
    }
  }

  // ---------------------------------------------------------------- uniqueness

  /** The epochs handed out during the run, in order. */
  function Issued(s: System, steps: seq<Step>): seq<nat> {
    if steps == [] then []
    else
      var before := steps[..|steps| - 1];
      Issued(s, before) + if steps[|steps| - 1].Increment? then [After(s, before).counter + 1] else []
  }

  predicate Resets(s: System, step: Step) {
    step.Finish? && step.index < |s.inFlight| && s.inFlight[step.index] >= RESET_AT
  }

  /** Some load of the run set the counter back. */
  predicate HasReset(s: System, steps: seq<Step>) {
    steps != [] &&
    (HasReset(s, steps[..|steps| - 1]) || Resets(After(s, steps[..|steps| - 1]), steps[|steps| - 1]))
  }

  /** Some load of the run started after a reset. */
  predicate LoadAfterReset(s: System, steps: seq<Step>) {
    steps != [] &&
    (LoadAfterReset(s, steps[..|steps| - 1]) || (steps[|steps| - 1].Increment? && HasReset(s, steps[..|steps| - 1])))
  }

  ghost predicate Distinct(epochs: seq<nat>) {
    forall i, j :: 0 <= i < j < |epochs| ==> epochs[i] != epochs[j]
  }

  /** Until a load starts after a reset, the loads get 1, 2, 3 and so on, and the counter is either
      the last of them or, once reset, 0. */
  lemma {:induction false} IssuedInOrder(steps: seq<Step>)
    requires !LoadAfterReset(START, steps)
    ensures forall i :: 0 <= i < |Issued(START, steps)| ==> Issued(START, steps)[i] == i + 1
    ensures After(START, steps).counter == if HasReset(START, steps) then 0 else |Issued(START, steps)|
    ensures After(START, steps).inFlight != [] ==> Issued(START, steps) != []
    ensures HasReset(START, steps) ==> Issued(START, steps) != []
    decreases |steps|
  {
    if steps != [] {
      IssuedInOrder(steps[..|steps| - 1]);
    }
  }

  /** A run hands out epoch 1 first; a load after a reset hands it out again. */
  lemma {:induction false} LoadAfterResetRepeats(steps: seq<Step>)
    requires LoadAfterReset(START, steps)
    ensures !Distinct(Issued(START, steps))
    decreases |steps|
  {
    var before := steps[..|steps| - 1];
    var old_, all := Issued(START, before), Issued(START, steps);
    if LoadAfterReset(START, before) {
      LoadAfterResetRepeats(before);
      var i, j :| 0 <= i < j < |old_| && old_[i] == old_[j];
      assert all[i] == all[j];
    } else {
      IssuedInOrder(before);
      assert all[0] == 1 && all[|old_|] == 1;
    }
  }

  /** Over any interleaving from an empty start, no two loads share an epoch exactly if no load
      starts after the counter was reset. */
  lemma EpochsDistinctExactly(steps: seq<Step>)
    ensures Distinct(Issued(START, steps)) <==> !LoadAfterReset(START, steps)
  {
    if LoadAfterReset(START, steps) {
      LoadAfterResetRepeats(steps);
    } else {
      IssuedInOrder(steps);
    }
  }

  /** Around a reset two loads can get the same epoch, well apart from each other: of two loads
      past the reset point the slower one resets the counter again, behind a load that already
      took epoch 1. */
  lemma LateResetRepeatsEpoch()
    ensures var s := System(RESET_AT + 1, [RESET_AT, RESET_AT + 1], 0);
            var first := Next(Next(s, Finish(0)), Increment);
            var second := Next(Next(first, Finish(0)), Increment);
            first.inFlight[1] == 1 && second.inFlight == [1, 1]
    ensures var steps := [Increment, Increment];
            After(System(RESET_AT - 1, [], 0), steps) == System(RESET_AT + 1, [RESET_AT, RESET_AT + 1], 0)
  {
    var s0 := System(RESET_AT - 1, [], 0);
    assert [Increment, Increment][..1] == [Increment];
    assert [Increment][..0] == [];
    assert After(s0, [Increment]) == System(RESET_AT, [RESET_AT], 0);
    assert [RESET_AT] + [RESET_AT + 1] == [RESET_AT, RESET_AT + 1];
    var s := System(RESET_AT + 1, [RESET_AT, RESET_AT + 1], 0);
    assert Next(s, Finish(0)) == System(0, [RESET_AT + 1], 0);
    var first := Next(Next(s, Finish(0)), Increment);
    assert first == System(1, [RESET_AT + 1, 1], 0);
    assert Next(first, Finish(0)) == System(0, [1], 0);
  }
}
