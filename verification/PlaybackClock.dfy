/** The lazily evaluated playback clock of a room. Only the position at the last event and the
    time of that event are stored; the position shown is computed when it is asked for. Times
    are arguments, in seconds. */
module PlaybackClock {
  import opened Options

  datatype Clock = Clock(position: real, start: Option<real>, playing: bool, speed: real)

  datatype Event =
    | Play
    | Pause
    | Seek(to: real)
    | SetSpeed(to: real)
    | Load(startAt: real)      // the next video starts
    | Restart                  // a video starts at 0, keeping the speed
    | Stop                     // the queue ran out
    | Rewind(to: real)         // a skip is undone

  datatype Stamped = Stamped(time: real, event: Event)

  // ---------------------------------------------------------------- the clock

  function CurrentPosition(start: real, now: real, offset: real, speed: real): real {
    offset + (now - start) * speed
  }

  function SinceStart(c: Clock, now: real): real {
    if c.start.Some? then CurrentPosition(c.start.value, now, 0.0, c.speed) else 0.0
  }

  function Shown(c: Clock, now: real): real {
    if c.start.Some? && c.playing then c.position + SinceStart(c, now) else c.position
  }

  function Flushed(c: Clock, now: real): Clock {
    c.(position := Shown(c, now), start := Some(now))
  }

  function Apply(c: Clock, e: Event, now: real): Clock {
    match e
    case Play => if c.playing then c else c.(playing := true, start := Some(now))
    case Pause => if !c.playing then c else Flushed(c, now).(start := None, playing := false)
    case Seek(to) => c.(position := to, start := Some(now))
    case SetSpeed(to) => Flushed(c, now).(speed := to)
    case Load(startAt) => c.(position := startAt, start := Some(now), speed := 1.0)
    case Restart => c.(position := 0.0, start := Some(now))
    case Stop => Clock(0.0, Some(now), false, 1.0)
    case Rewind(to) => c.(position := to)
  }

  function After(c: Clock, history: seq<Stamped>): Clock {
    if history == [] then c
    else
      var last := history[|history| - 1];
      Apply(After(c, history[..|history| - 1]), last.event, last.time)
  }

  // ---------------------------------------------------------------- what the clock should show

  /** Whether the room plays after the first `k` events. */
  function PlayingAfter(initially: bool, history: seq<Stamped>, k: nat): bool
    requires k <= |history|
  {
    if k == 0 then initially
    else
      match history[k - 1].event
      case Play => true
      case Pause => false
      case Stop => false
      case _ => PlayingAfter(initially, history, k - 1)
  }

  function SpeedAfter(initially: real, history: seq<Stamped>, k: nat): real
    requires k <= |history|
  {
    if k == 0 then initially
    else
      match history[k - 1].event
      case SetSpeed(to) => to
      case Load(_) => 1.0
      case Stop => 1.0
      case _ => SpeedAfter(initially, history, k - 1)
  }

  /** Media seconds per second, after the first `k` events. */
  function Rate(c: Clock, history: seq<Stamped>, k: nat): real
    requires k <= |history|
  {
    if PlayingAfter(c.playing, history, k) then SpeedAfter(c.speed, history, k) else 0.0
  }

  /** When the `k`-th interval between events begins; interval 0 begins at `since`. */
  function Begins(since: real, history: seq<Stamped>, k: nat): real
    requires k <= |history|
  {
    if k == 0 then since else history[k - 1].time
  }

  predicate Anchors(e: Event) {
    e.Seek? || e.Load? || e.Restart? || e.Stop? || e.Rewind?
  }

  /** The number of events up to and including the last one that set the position. */
  function LastAnchor(history: seq<Stamped>, k: nat): (a: nat)
    requires k <= |history|
    ensures a <= k
  {
    if k == 0 || Anchors(history[k - 1].event) then k else LastAnchor(history, k - 1)
  }

  function AnchorValue(c: Clock, history: seq<Stamped>, a: nat): real
    requires a <= |history|
  {
    if a == 0 then c.position
    else
      match history[a - 1].event
      case Seek(to) => to
      case Load(startAt) => startAt
      case Rewind(to) => to
      case _ => 0.0
  }

  /** The sum of rate times length over the closed intervals `from`, ..., `to - 1`. */
  function Integral(c: Clock, since: real, history: seq<Stamped>, from: nat, to: nat): real
    requires from <= to <= |history|
  {
    if from == to then 0.0
    else
      Integral(c, since, history, from, to - 1) +
      Rate(c, history, to - 1) * (Begins(since, history, to) - Begins(since, history, to - 1))
  }

  /** The last position set, plus the media time that was played since. */
  function Expected(c: Clock, since: real, history: seq<Stamped>, now: real): real {
    var n := |history|;
    var a := LastAnchor(history, n);
    AnchorValue(c, history, a) + Integral(c, since, history, a, n) +
    Rate(c, history, n) * (now - Begins(since, history, n))
  }

  /** Undoing a skip sets the position without restarting the clock: what the clock has counted
      since it was last restarted is added on top. */
  function Lag(c: Clock, history: seq<Stamped>): real {
    var a := LastAnchor(history, |history|);
    if a > 0 && history[a - 1].event.Rewind?
    then Shown(After(c, history[..a - 1]), history[a - 1].time) - After(c, history[..a - 1]).position
    else 0.0
  }

  // ---------------------------------------------------------------- the two agree

  lemma {:induction false} AfterPlaying(c: Clock, history: seq<Stamped>)
    ensures After(c, history).playing == PlayingAfter(c.playing, history, |history|)
    ensures After(c, history).speed == SpeedAfter(c.speed, history, |history|)
    decreases |history|
  {
    if history != [] {
      var before := history[..|history| - 1];
      AfterPlaying(c, before);
      SamePrefix(c, 0.0, history, |history| - 1);
    }
  }

  /** Everything about the first `k` events is decided by those events alone. */
  lemma {:induction false} SamePrefix(c: Clock, since: real, history: seq<Stamped>, k: nat)
    requires k < |history|
    ensures var before := history[..|history| - 1];
            && PlayingAfter(c.playing, before, k) == PlayingAfter(c.playing, history, k)
            && SpeedAfter(c.speed, before, k) == SpeedAfter(c.speed, history, k)
            && Begins(since, before, k) == Begins(since, history, k)
            && LastAnchor(before, k) == LastAnchor(history, k)
            && AnchorValue(c, before, k) == AnchorValue(c, history, k)
  {
    if k > 0 {
      SamePrefix(c, since, history, k - 1);
    }
  }

  lemma {:induction false} SameIntegral(c: Clock, since: real, history: seq<Stamped>, from: nat, to: nat)
    requires from <= to < |history|
    ensures Integral(c, since, history[..|history| - 1], from, to) == Integral(c, since, history, from, to)
  {
    if from < to {
      SameIntegral(c, since, history, from, to - 1);
      SamePrefix(c, since, history, to - 1);
      SamePrefix(c, since, history, to);
    }
  }

  /** A playing clock has a start time, so it runs. */
  predicate Started(c: Clock) {
    c.playing ==> c.start.Some?
  }

  lemma ApplyKeepsStarted(c: Clock, e: Event, now: real)
    requires Started(c)
    ensures Started(Apply(c, e, now))
  {
  }

  /** The events that move nothing: playing, pausing and changing speed. */
  lemma NoJump(c: Clock, e: Event, now: real)
    ensures !Anchors(e) ==> Shown(Apply(c, e, now), now) == Shown(c, now)
    ensures e.Seek? ==> Shown(Apply(c, e, now), now) == e.to
    ensures e.Load? ==> Shown(Apply(c, e, now), now) == e.startAt
    ensures e.Restart? || e.Stop? ==> Shown(Apply(c, e, now), now) == 0.0
    ensures e.Rewind? ==> Shown(Apply(c, e, now), now) == e.to + (Shown(c, now) - c.position)
  {
  }

  /** Between events the clock advances at the rate of the moment. */
  lemma Advances(c: Clock, then_: real, now: real)
    ensures Shown(c, now) == Shown(c, then_) +
                             (if c.playing && c.start.Some? then c.speed * (now - then_) else 0.0)
  {
    if c.playing && c.start.Some? {
      Distributes(c.speed, now - then_, then_ - c.start.value);
    }
  }

  lemma Distributes(x: real, a: real, b: real)
    ensures (a + b) * x == x * a + b * x
  {
  }

  lemma {:induction false} AfterStarted(c: Clock, history: seq<Stamped>)
    requires Started(c)
    ensures Started(After(c, history))
    decreases |history|
  {
    if history != [] {
      AfterStarted(c, history[..|history| - 1]);
    }
  }

  /** The expected position does not move at an event that sets no position. */
  lemma ExpectedContinues(c: Clock, since: real, history: seq<Stamped>)
    requires history != [] && !Anchors(history[|history| - 1].event)
    ensures var last := history[|history| - 1];
            Expected(c, since, history, last.time) == Expected(c, since, history[..|history| - 1], last.time)
  {
    var n := |history|;
    AnchorContinues(c, since, history);
    SameIntegral(c, since, history, LastAnchor(history, n), n - 1);
    ExpectedAtLast(c, since, history);
    ExpectedBeforeLast(c, since, history);
  }

  /** The media time of interval `k`, counted up to `now`. */
  function Counted(c: Clock, since: real, history: seq<Stamped>, k: nat, now: real): real
    requires k <= |history|
  {
    Rate(c, history, k) * (now - Begins(since, history, k))
  }

  lemma ExpectedAtLast(c: Clock, since: real, history: seq<Stamped>)
    requires history != [] && LastAnchor(history, |history|) < |history|
    ensures var n, a, t := |history|, LastAnchor(history, |history|), history[|history| - 1].time;
            Expected(c, since, history, t) ==
            AnchorValue(c, history, a) + Integral(c, since, history, a, n - 1) + Counted(c, since, history, n - 1, t)
  {
    var n := |history|;
    TimesNothing(Rate(c, history, n), history[n - 1].time, Begins(since, history, n));
  }

  lemma ExpectedBeforeLast(c: Clock, since: real, history: seq<Stamped>)
    requires history != []
    ensures var n, before, t := |history|, history[..|history| - 1], history[|history| - 1].time;
            var a := LastAnchor(before, n - 1);
            Expected(c, since, before, t) ==
            AnchorValue(c, before, a) + Integral(c, since, before, a, n - 1) + Counted(c, since, history, n - 1, t)
  {
    SamePrefix(c, since, history, |history| - 1);
  }

  lemma AnchorContinues(c: Clock, since: real, history: seq<Stamped>)
    requires history != [] && !Anchors(history[|history| - 1].event)
    ensures var n := |history|;
            var before := history[..n - 1];
            var a := LastAnchor(history, n);
            && LastAnchor(before, n - 1) == a <= n - 1
            && AnchorValue(c, before, a) == AnchorValue(c, history, a)
  {
    var a := LastAnchor(history, |history|);
    SamePrefix(c, since, history, |history| - 1);
    SamePrefix(c, since, history, a);
  }

  lemma LagContinues(c: Clock, since: real, history: seq<Stamped>)
    requires history != [] && !Anchors(history[|history| - 1].event)
    ensures Lag(c, history) == Lag(c, history[..|history| - 1])
  {
    var n := |history|;
    var a := LastAnchor(history, n);
    AnchorContinues(c, since, history);
    if a > 0 {
      assert history[..n - 1][..a - 1] == history[..a - 1];
    }
  }

  lemma ExpectedAdvances(c: Clock, since: real, history: seq<Stamped>, then_: real, now: real)
    ensures Expected(c, since, history, now) ==
            Expected(c, since, history, then_) + Rate(c, history, |history|) * (now - then_)
  {
    var began := Begins(since, history, |history|);
    Distributes(Rate(c, history, |history|), now - then_, then_ - began);
  }

  lemma ExpectedAtAnchor(c: Clock, since: real, history: seq<Stamped>)
    requires history == [] || Anchors(history[|history| - 1].event)
    ensures var at := Begins(since, history, |history|);
            Expected(c, since, history, at) == AnchorValue(c, history, |history|)
  {
  }

  /** The clock and the integral agree at the moment of the last event. */
  lemma ShownAtAnchor(c: Clock, since: real, history: seq<Stamped>)
    requires c.playing ==> c.start == Some(since)
    requires history == [] || Anchors(history[|history| - 1].event)
    ensures var at := Begins(since, history, |history|);
            Shown(After(c, history), at) == AnchorValue(c, history, |history|) + Lag(c, history)
  {
    if history != [] {
      var last := history[|history| - 1];
      NoJump(After(c, history[..|history| - 1]), last.event, last.time);
    }
  }

  /** The clock refines the integral, for every history of events at any times: it shows the last
      position set plus the media time played since. Only an undone skip is off, by what the
      clock had counted since its last restart. */
  lemma {:induction false} ShowsIntegral(c: Clock, since: real, history: seq<Stamped>, now: real)
    requires c.playing ==> c.start == Some(since)
    ensures Shown(After(c, history), now) == Expected(c, since, history, now) + Lag(c, history)
    decreases |history|
  {
    var at := Begins(since, history, |history|);
    assert Shown(After(c, history), at) == Expected(c, since, history, at) + Lag(c, history) by {
      if history == [] || Anchors(history[|history| - 1].event) {
        ExpectedAtAnchor(c, since, history);
        ShownAtAnchor(c, since, history);
      } else {
        var before := history[..|history| - 1];
        ShowsIntegral(c, since, before, at);
        NoJump(After(c, before), history[|history| - 1].event, at);
        ExpectedContinues(c, since, history);
        LagContinues(c, since, history);
      }
    }
    AfterStarted(c, history);
    AfterPlaying(c, history);
    Advances(After(c, history), at, now);
    ExpectedAdvances(c, since, history, at, now);
  }

  /** A rewind at `now` leaves the clock on the position set exactly when the clock stands still or
      was restarted at that very moment. */
  predicate RewindsCleanly(c: Clock, now: real) {
    !c.playing || c.start.None? || c.speed == 0.0 || now == c.start.value
  }

  /** The last event that set the position is an undone skip that did not rewind cleanly. */
  predicate RanAhead(c: Clock, history: seq<Stamped>) {
    var a := LastAnchor(history, |history|);
    a > 0 && history[a - 1].event.Rewind? && !RewindsCleanly(After(c, history[..a - 1]), history[a - 1].time)
  }

  lemma LagMeaning(c: Clock, history: seq<Stamped>)
    ensures Lag(c, history) == 0.0 <==> !RanAhead(c, history)
  {
    var a := LastAnchor(history, |history|);
    if a > 0 && history[a - 1].event.Rewind? {
      var b, t := After(c, history[..a - 1]), history[a - 1].time;
      if b.playing && b.start.Some? {
        assert Lag(c, history) == (t - b.start.value) * b.speed;
        if b.speed != 0.0 && t != b.start.value {
          NonZeroProduct(t - b.start.value, b.speed);
        }
      }
    }
  }

  /** So the clock is exact if and only if the last position was not set by undoing a skip while the
      clock was playing, at some speed, away from the moment of its last restart. */
  lemma ExactUnlessUndoneSkip(c: Clock, since: real, history: seq<Stamped>, now: real)
    requires c.playing ==> c.start == Some(since)
    ensures Shown(After(c, history), now) == Expected(c, since, history, now) <==> !RanAhead(c, history)
    ensures (forall k :: 0 <= k < |history| ==> !history[k].event.Rewind?) ==> !RanAhead(c, history)
  {
    ShowsIntegral(c, since, history, now);
    LagMeaning(c, history);
  }

  /** A room skipped at 100 seconds and undone 5 seconds later shows 105 instead of 100. */
  lemma UndoneSkipRunsAhead()
    ensures var c := Clock(100.0, Some(0.0), true, 1.0);
            var history := [Stamped(0.0, Load(0.0)), Stamped(5.0, Rewind(100.0))];
            Shown(After(c, history), 5.0) == 105.0 && Expected(c, 0.0, history, 5.0) == 100.0
  {
    var c := Clock(100.0, Some(0.0), true, 1.0);
    var history := [Stamped(0.0, Load(0.0)), Stamped(5.0, Rewind(100.0))];
    assert history[..1] == [Stamped(0.0, Load(0.0))];
    assert After(c, history[..1][..0]) == c;
    assert After(c, history[..1]) == Apply(c, Load(0.0), 0.0);
  }

  /** A clock that plays without a start time stands still, and stays so until an event other than
      a play, or an undone skip, comes. */
  lemma UnstartedStandsStill(c: Clock, now: real, later: real)
    ensures Shown(c, now) == Shown(c, later) <==>
            !c.playing || c.start.None? || c.speed == 0.0 || now == later
    ensures c.playing && c.start.None? ==>
              forall e :: Started(Apply(c, e, now)) <==> !e.Play? && !e.Rewind?
  {
    Advances(c, now, later);
    if c.playing && c.start.Some? && c.speed != 0.0 && now != later {
      NonZeroProduct(c.speed, later - now);
    }
  }

  lemma TimesNothing(x: real, a: real, b: real)
    requires a == b
    ensures x * (a - b) == 0.0
  {
  }

  lemma NonZeroProduct(x: real, y: real)
    requires x != 0.0 && y != 0.0
    ensures x * y != 0.0
  {
  }
}
