/** What advancing to the next video does to the videos of a room, in each queue mode. */
module QueueModes {
  import opened Options
  import opened VideoQueues
  import opened PlaybackClock
  import opened RoomState

  /** The current video and the queued ones, in playing order. */
  function Items(r: Room): seq<QueueItem> {
    (if r.current.Some? then [r.current.value] else []) + r.queue
  }

  function TrimmedAll(items: seq<QueueItem>): (t: seq<QueueItem>)
    ensures |t| == |items|
    ensures forall i :: 0 <= i < |t| ==> t[i] == Trimmed(items[i])
  {
    if items == [] then [] else TrimmedAll(items[..|items| - 1]) + [Trimmed(items[|items| - 1])]
  }

  /** In loop mode an advance puts the current video, without its trim, behind the queue. */
  lemma LoopAdvance(r: Room, now: real)
    requires r.mode.Loop? && r.current.Some?
    ensures Dequeued(r, now).mode == r.mode && Dequeued(r, now).current.Some?
    ensures Items(Dequeued(r, now)) == r.queue + [Trimmed(r.current.value)]
  {
    var q := Requeued(VotesCleared(r));
    assert q.queue == r.queue + [Trimmed(r.current.value)];
    LoadedItems(q, now);
  }

  /** In disc-jockey mode the current video starts over. */
  lemma DjAdvance(r: Room, now: real)
    requires r.mode.Dj? && r.current.Some?
    ensures Dequeued(r, now).mode == r.mode && Dequeued(r, now).current.Some?
    ensures Items(Dequeued(r, now)) == [Trimmed(r.current.value)] + r.queue
  {
  }

  /** In the other two modes, and whenever nothing plays, the current video is dropped. */
  lemma PlainAdvance(r: Room, now: real)
    requires r.mode.Manual? || r.mode.Vote? || r.current.None?
    ensures Dequeued(r, now).mode == r.mode
    ensures Items(Dequeued(r, now)) == r.queue
    ensures Dequeued(r, now).current.None? <==> r.queue == []
  {
    var q := VotesCleared(r);
    assert Requeued(q) == q;
    if q.queue != [] {
      LoadedItems(q, now);
    }
  }

  lemma LoadedItems(r: Room, now: real)
    requires r.queue != []
    ensures Loaded(r, now).current.Some? && Loaded(r, now).mode == r.mode
    ensures Items(Loaded(r, now)) == r.queue
  {
  }

  function DequeuedAll(r: Room, times: seq<real>): Room {
    if times == [] then r
    else Dequeued(DequeuedAll(r, times[..|times| - 1]), times[|times| - 1])
  }

  lemma RotateOnce(items: seq<QueueItem>, rotated: seq<QueueItem>, k: nat)
    requires k < |items| && rotated == items[k..] + TrimmedAll(items[..k])
    ensures rotated[1..] + [Trimmed(rotated[0])] == items[k + 1..] + TrimmedAll(items[..k + 1])
  {
    assert items[..k + 1][..k] == items[..k];
    assert items[k..] == [items[k]] + items[k + 1..];
  }

  lemma ItemsSplit(r: Room)
    requires r.current.Some?
    ensures |Items(r)| == 1 + |r.queue|
    ensures Items(r)[0] == r.current.value && Items(r)[1..] == r.queue
  {
  }

  /** In loop mode the first `k` advances move the first `k` videos, trimmed, behind the others. */
  lemma {:induction false} LoopRotates(r: Room, times: seq<real>)
    requires r.mode.Loop? && r.current.Some? && |times| <= 1 + |r.queue|
    ensures |times| <= |Items(r)|
    ensures Items(DequeuedAll(r, times)) == Items(r)[|times|..] + TrimmedAll(Items(r)[..|times|])
    ensures DequeuedAll(r, times).current.Some? && DequeuedAll(r, times).mode.Loop?
    decreases |times|
  {
    ItemsSplit(r);
    if times != [] {
      var k := |times| - 1;
      var before := DequeuedAll(r, times[..k]);
      LoopRotates(r, times[..k]);
      LoopAdvance(before, times[k]);
      ItemsSplit(before);
      RotateOnce(Items(r), Items(before), k);
    }
  }

  /** A full turn of `n + 1` advances restores the current video and the whole queue, all
      trimmed; a room whose videos are not trimmed is restored exactly. */
  lemma LoopTurns(r: Room, times: seq<real>)
    requires r.mode.Loop? && r.current.Some? && |times| == 1 + |r.queue|
    ensures DequeuedAll(r, times).current == Some(Trimmed(r.current.value))
    ensures DequeuedAll(r, times).queue == TrimmedAll(r.queue)
  {
    LoopRotates(r, times);
    ItemsSplit(r);
    FromTrimmed(DequeuedAll(r, times), Items(r), |times|);
  }

  lemma FromTrimmed(turned: Room, items: seq<QueueItem>, k: nat)
    requires turned.current.Some? && k == |items| > 0
    requires Items(turned) == items[k..] + TrimmedAll(items[..k])
    ensures turned.current == Some(Trimmed(items[0])) && turned.queue == TrimmedAll(items[1..])
  {
    ItemsSplit(turned);
    assert items[..k] == items;
    assert Items(turned) == TrimmedAll(items);
    assert TrimmedAll(items[1..]) == TrimmedAll(items)[1..];
  }

  lemma TrimmedAllAdds(a: seq<QueueItem>, b: seq<QueueItem>)
    ensures TrimmedAll(a + b) == TrimmedAll(a) + TrimmedAll(b)
  {
  }

  lemma TrimmedMove(first: QueueItem, rest: seq<QueueItem>)
    ensures multiset(TrimmedAll(rest + [Trimmed(first)])) == multiset(TrimmedAll([first] + rest))
    ensures multiset(TrimmedAll([Trimmed(first)] + rest)) == multiset(TrimmedAll([first] + rest))
  {
    assert TrimmedAll([Trimmed(first)]) == TrimmedAll([first]);
    TrimmedAllAdds([first], rest);
    TrimmedAllAdds(rest, [Trimmed(first)]);
    TrimmedAllAdds([Trimmed(first)], rest);
  }

  /** However often it advances, a room in loop or disc-jockey mode keeps exactly its videos, as
      a multiset and up to cleared trims. */
  lemma {:induction false} ItemsConserved(r: Room, times: seq<real>)
    requires r.mode.Loop? || r.mode.Dj?
    ensures multiset(TrimmedAll(Items(DequeuedAll(r, times)))) == multiset(TrimmedAll(Items(r)))
    ensures DequeuedAll(r, times).mode == r.mode
    decreases |times|
  {
    if times != [] {
      var before := DequeuedAll(r, times[..|times| - 1]);
      ItemsConserved(r, times[..|times| - 1]);
      AdvanceConserves(before, times[|times| - 1]);
    }
  }

  lemma AdvanceConserves(r: Room, now: real)
    requires r.mode.Loop? || r.mode.Dj?
    ensures multiset(TrimmedAll(Items(Dequeued(r, now)))) == multiset(TrimmedAll(Items(r)))
    ensures Dequeued(r, now).mode == r.mode
  {
    if r.current.None? {
      PlainAdvance(r, now);
      assert Items(r) == r.queue;
    } else {
      TrimmedMove(r.current.value, r.queue);
      if r.mode.Loop? {
        LoopAdvance(r, now);
      } else {
        DjAdvance(r, now);
      }
    }
  }

  /** In the other two modes the room plays its queue in order, once, and then stops. */
  lemma {:induction false} PlaysInOrder(r: Room, times: seq<real>)
    requires r.mode.Manual? || r.mode.Vote?
    requires r.current.Some? && |times| <= 1 + |r.queue|
    ensures |times| <= |Items(r)|
    ensures Items(DequeuedAll(r, times)) == Items(r)[|times|..]
    ensures DequeuedAll(r, times).mode == r.mode
    ensures DequeuedAll(r, times).current.None? <==> |times| == 1 + |r.queue|
    decreases |times|
  {
    ItemsSplit(r);
    if times != [] {
      var before := DequeuedAll(r, times[..|times| - 1]);
      PlaysInOrder(r, times[..|times| - 1]);
      PlainAdvance(before, times[|times| - 1]);
      ItemsSplit(before);
    }
  }

  // ---------------------------------------------------------------- the periodic update

  /** One update in vote mode, with nothing to advance to: the queue ends up in its one stable
      order by votes, and is marked exactly when that moved something. */
  lemma UpdateSortsByVotes(r: Room, now: real)
    requires r.mode.Vote? && !WantsNext(r, now)
    ensures StableOrder(r.queue, Updated(r, now).queue, VotesFor(r.votes))
    ensures multiset(Updated(r, now).queue) == multiset(r.queue)
    ensures Updated(r, now) == r.(queue := Updated(r, now).queue, dirty := Updated(r, now).dirty)
    ensures Updated(r, now).dirty == if Updated(r, now).queue == r.queue then r.dirty else r.dirty + {Queue}
  {
    OrderedIsStable(r.queue, VotesFor(r.votes));
  }

  /** A second update with the same votes changes nothing, and marks nothing. */
  lemma UpdateAgain(r: Room, now: real, later: real)
    requires r.mode.Vote? && !WantsNext(r, now) && !WantsNext(Updated(r, now), later)
    ensures Updated(Updated(r, now), later) == Updated(r, now)
  {
    OrderedWhenSorted(r.queue, VotesFor(r.votes));
  }

  function UpdatedAll(r: Room, times: seq<real>): Room {
    if times == [] then r else Updated(UpdatedAll(r, times[..|times| - 1]), times[|times| - 1])
  }

  ghost predicate NeverOver(r: Room, times: seq<real>) {
    forall k :: 0 <= k < |times| ==> !IsOver(r, times[k])
  }

  /** While nothing comes to its end, any number of updates does what one of them does. */
  lemma {:induction false} UpdatesSortOnce(r: Room, times: seq<real>)
    requires r.current.Some? && NeverOver(r, times)
    ensures UpdatedAll(r, times) == if times == [] then r else SortedByVotes(r)
    decreases |times|
  {
    if times != [] {
      var now := times[|times| - 1];
      UpdatesSortOnce(r, times[..|times| - 1]);
      assert Updated(r, now) == SortedByVotes(r);
      if r.mode.Vote? && |times| > 1 {
        UpdateAgain(r, now, now);
      }
    }
  }

  /** The current video plays, and is shown past the end that it was given, or else past its length; one
      that has neither is past its end as soon as it is shown past zero. */
  ghost predicate PastEnd(r: Room, now: real) {
    r.current.Some? && r.clock.playing &&
    match (r.current.value.endAt, r.current.value.length)
    case (Some(end), _) => Shown(r.clock, now) > end
    case (None, Some(length)) => Shown(r.clock, now) > length
    case (None, None) => Shown(r.clock, now) > 0.0
  }

  lemma OverExactly(r: Room, now: real)
    ensures IsOver(r, now) <==> PastEnd(r, now)
  {
  }

  lemma SortingKeepsVideos(r: Room)
    ensures SortedByVotes(r).current == r.current && SortedByVotes(r).clock == r.clock
    ensures multiset(SortedByVotes(r).queue) == multiset(r.queue)
    ensures !r.mode.Vote? ==> SortedByVotes(r) == r
  {
    OrderedIsStable(r.queue, VotesFor(r.votes));
  }

  /** An update advances exactly when nothing plays and something is queued, or when the current
      video has run past its end; apart from the order in vote mode it does nothing else. */
  lemma UpdateAdvances(r: Room, now: real)
    ensures var d := if (r.current.None? && r.queue != []) || PastEnd(r, now) then Dequeued(r, now) else r;
            && Updated(r, now).current == d.current && Updated(r, now).clock == d.clock
            && multiset(Updated(r, now).queue) == multiset(d.queue)
            && (!d.mode.Vote? ==> Updated(r, now) == d)
  {
    OverExactly(r, now);
    SortingKeepsVideos(if WantsNext(r, now) then Dequeued(r, now) else r);
  }

  /** After an update nothing is left waiting while nothing plays. */
  lemma UpdateStartsPlaying(r: Room, now: real)
    ensures Updated(r, now).current.None? ==> Updated(r, now).queue == []
  {
    UpdateAdvances(r, now);
    if WantsNext(r, now) {
      AdvanceStops(r, now);
      assert Dequeued(r, now).current.None? ==> |multiset(Updated(r, now).queue)| == 0;
    }
  }

  /** An advance leaves the room without a current video only when the queue is empty. */
  lemma AdvanceStops(r: Room, now: real)
    ensures Dequeued(r, now).current.None? ==> Dequeued(r, now).queue == []
  {
    if r.current.Some? && r.mode.Loop? {
      LoopAdvance(r, now);
    } else if r.current.Some? && r.mode.Dj? {
      DjAdvance(r, now);
    } else {
      PlainAdvance(r, now);
      assert Dequeued(r, now).current.None? ==> Items(Dequeued(r, now)) == Dequeued(r, now).queue;
    }
  }
}
