/** When no video is in a room twice, over whole histories of requests and updates. */
module QueueRuns {
  import opened Options
  import opened VideoQueues
  import opened RoomState
  import opened PlaybackClock
  import opened QueueUniqueness
  import opened DeltaSync

  /** A shuffle is a permutation. */
  ghost predicate Possible(r: Room, op: Op) {
    op.Shuffle? ==> multiset(op.shuffled) == multiset(r.queue)
  }

  // ---------------------------------------------------------------- the guard of each operation

  /** What is about to be queued or played is not there yet. */
  predicate AddGuard(r: Room, asked: VideoId, subtitle: Option<string>, fetched: QueueItem) {
    InQueue(r, asked) || !SubtitleAccepted(subtitle) || !InQueue(r, fetched.video)
  }

  /** No video of the list that is new to the room is in the list twice. */
  ghost predicate AddManyGuard(r: Room, videos: seq<QueueItem>) {
    forall v :: !InQueue(r, v) ==> Times(videos, v) <= 1
  }

  predicate PlayNowGuard(r: Room, video: VideoId, subtitle: Option<string>, fetched: QueueItem, allowed: bool) {
    !allowed || InQueue(r, video) || !SubtitleAccepted(subtitle) || !InQueue(r, fetched.video)
  }

  /** No video of the previous queue is in it twice or in the room. */
  ghost predicate RestoreGuard(r: Room, discard: bool) {
    r.prevQueue.Some? && !discard ==>
      forall v :: Times(r.prevQueue.value, v) <= if InQueue(r, v) then 0 else 1
  }

  /** A skip that is undone brings a video back that is not there; when it brings none back, nothing
      plays. A removal that is undone inserts a video that is not there. */
  predicate UndoGuard(r: Room, event: UndoEvent) {
    match event
    case SkipEvent(video, prev) =>
      if video.Some? && Truthy(prev) then !InQueue(r, video.value.video) else r.current.None?
    case RemoveEvent(video, idx) =>
      video.Some? && idx.Some? && 0 <= idx.value <= |r.queue| ==> !InQueue(r, video.value.video)
    case _ => true
  }

  ghost predicate Guard(r: Room, op: Op) {
    match op
    case Add(asked, subtitle, fetched) => AddGuard(r, asked, subtitle, fetched)
    case AddMany(videos) => AddManyGuard(r, videos)
    case PlayNow(video, subtitle, fetched, allowed) => PlayNowGuard(r, video, subtitle, fetched, allowed)
    case Restore(discard) => RestoreGuard(r, discard)
    case Undo(event, _) => UndoGuard(r, event)
    case _ => true
  }

  // ---------------------------------------------------------------- each operation

  /** One more video keeps the room unique exactly if it was not there. */
  lemma OneMoreExactly(r: Room, s: Room, x: QueueItem)
    requires NoneTwice(r) && forall v :: TimesIn(s, v) == TimesIn(r, v) + Is(x, v)
    ensures NoneTwice(s) <==> !InQueue(r, x.video)
  {
    InQueueMeansCounted(r, x.video);
    assert TimesIn(s, x.video) == TimesIn(r, x.video) + 1;
    assert TimesIn(r, x.video) <= 1;
    if !InQueue(r, x.video) {
      forall v
        ensures TimesIn(s, v) <= 1
      {
        assert TimesIn(r, v) <= 1;
      }
    }
  }

  lemma NoMoreKeepsUnique(r: Room, s: Room)
    requires NoneTwice(r) && forall v :: TimesIn(s, v) <= TimesIn(r, v)
    ensures NoneTwice(s)
  {
    forall v
      ensures TimesIn(s, v) <= 1
    {
      assert TimesIn(r, v) <= 1;
    }
  }

  lemma AdditionsUniqueExactly(r: Room, op: Op, now: real)
    requires NoneTwice(r) && (op.Add? || op.AddMany?)
    ensures NoneTwice(Performed(r, op, now)) <==> Guard(r, op)
  {
    match op
    case Add(asked, subtitle, fetched) =>
      if Added(r, asked, subtitle, fetched).reply == Accepted {
        AddingKeepsUnique(r, asked, subtitle, fetched);
      }
    case AddMany(videos) => AddingManyKeepsUnique(r, videos);
  }

  lemma EditsKeepUnique(r: Room, op: Op, now: real)
    requires NoneTwice(r) && (op.Remove? || op.Reorder? || op.UpdateItem?)
    ensures NoneTwice(Performed(r, op, now))
  {
    forall v
      ensures TimesIn(Performed(r, op, now), v) <= TimesIn(r, v)
    {
      match op
      case Remove(video) => RemovingTimes(r, video, v);
      case Reorder(from, to) => ReorderingTimes(r, from, to, v);
      case UpdateItem(video, patch) => EditingTimes(r, video, patch, v);
    }
    NoMoreKeepsUnique(r, Performed(r, op, now));
  }

  /** A video that is refused its subtitle is at most lost. */
  lemma RefusedPlayNowTimes(r: Room, video: VideoId, subtitle: Option<string>, fetched: QueueItem,
                            allowed: bool, now: real, v: VideoId)
    requires !allowed || !SubtitleAccepted(subtitle) || (r.current.Some? && r.current.value.video == video)
    ensures TimesIn(PlayedNow(r, video, subtitle, fetched, allowed, now).room, v) <= TimesIn(r, v)
  {
    var i := IndexOf(r.queue, video);
    if i.Some? {
      TimesRemoved(r.queue, i.value, v);
    }
  }

  lemma PlayNowUniqueExactly(r: Room, video: VideoId, subtitle: Option<string>, fetched: QueueItem,
                             allowed: bool, now: real)
    requires NoneTwice(r)
    ensures NoneTwice(PlayedNow(r, video, subtitle, fetched, allowed, now).room) <==>
            PlayNowGuard(r, video, subtitle, fetched, allowed)
  {
    var s := PlayedNow(r, video, subtitle, fetched, allowed, now).room;
    if allowed && SubtitleAccepted(subtitle) && (r.current.Some? ==> r.current.value.video != video) {
      forall v
        ensures TimesIn(s, v) == TimesIn(r, v) + if InQueue(r, video) then 0 else Is(fetched, v)
      {
        PlayingNowTimes(r, video, subtitle, fetched, now, v);
      }
      if InQueue(r, video) {
        NoMoreKeepsUnique(r, s);
      } else {
        OneMoreExactly(r, s, fetched);
      }
    } else {
      forall v
        ensures TimesIn(s, v) <= TimesIn(r, v)
      {
        RefusedPlayNowTimes(r, video, subtitle, fetched, allowed, now, v);
      }
      NoMoreKeepsUnique(r, s);
    }
  }

  lemma RestoreUniqueExactly(r: Room, discard: bool)
    requires NoneTwice(r)
    ensures NoneTwice(Restored(r, discard).room) <==> RestoreGuard(r, discard)
  {
    var s := Restored(r, discard).room;
    if r.prevQueue.Some? && !discard {
      var more := r.prevQueue.value;
      assert s.current == r.current && s.queue == r.queue + more;
      forall v
        ensures TimesIn(s, v) <= 1 <==> Times(more, v) <= if InQueue(r, v) then 0 else 1
      {
        assert TimesIn(r, v) <= 1;
        TimesAdds(r.queue, more, v);
        InQueueMeansCounted(r, v);
      }
    } else {
      assert s.current == r.current && s.queue == r.queue;
      NoMoreKeepsUnique(r, s);
    }
  }

  /** An undone skip counts the video it brings back once more, or else the one that plays. */
  lemma SkipUndoneTimes(r: Room, video: Option<QueueItem>, prev: Option<real>, now: real, v: VideoId)
    ensures TimesIn(SkipUndone(r, video, prev, now), v) ==
            TimesIn(r, v) + if video.Some? && Truthy(prev) then Is(video.value, v)
                            else if r.current.Some? then Is(r.current.value, v)
                            else 0
  {
    if r.current.Some? {
      TimesOne(r.current.value, v);
      TimesAdds([r.current.value], r.queue, v);
    }
  }

  lemma SkipUndoneUniqueExactly(r: Room, video: Option<QueueItem>, prev: Option<real>, now: real)
    requires NoneTwice(r)
    ensures NoneTwice(SkipUndone(r, video, prev, now)) <==> UndoGuard(r, SkipEvent(video, prev))
  {
    var s := SkipUndone(r, video, prev, now);
    forall v
      ensures TimesIn(s, v) ==
              TimesIn(r, v) + if video.Some? && Truthy(prev) then Is(video.value, v)
                              else if r.current.Some? then Is(r.current.value, v)
                              else 0
    {
      SkipUndoneTimes(r, video, prev, now, v);
    }
    if video.Some? && Truthy(prev) {
      OneMoreExactly(r, s, video.value);
    } else if r.current.Some? {
      OneMoreExactly(r, s, r.current.value);
    } else {
      NoMoreKeepsUnique(r, s);
    }
  }

  lemma InsertUniqueExactly(r: Room, x: QueueItem, i: nat)
    requires NoneTwice(r) && i <= |r.queue|
    ensures NoneTwice(WithQueue(r, Inserted(r.queue, x, i))) <==> !InQueue(r, x.video)
  {
    var s := WithQueue(r, Inserted(r.queue, x, i));
    forall v
      ensures TimesIn(s, v) == TimesIn(r, v) + Is(x, v)
    {
      TimesInserted(r.queue, x, i, v);
    }
    OneMoreExactly(r, s, x);
  }

  lemma UndoUniqueExactly(r: Room, event: UndoEvent, allowed: bool, now: real)
    requires NoneTwice(r)
    ensures NoneTwice(Undone(r, event, allowed, now).room) <==> UndoGuard(r, event)
  {
    var s := Undone(r, event, allowed, now).room;
    match event
    case SkipEvent(video, prev) => SkipUndoneUniqueExactly(r, video, prev, now);
    case RemoveEvent(video, idx) =>
      if video.Some? && idx.Some? && 0 <= idx.value <= |r.queue| {
        InsertUniqueExactly(r, video.value, idx.value);
      }
    case AddEvent(asked) =>
      forall v
        ensures TimesIn(s, v) <= TimesIn(r, v)
      {
        if asked.Some? {
          RemovingTimes(r, asked.value, v);
        }
      }
      NoMoreKeepsUnique(r, s);
    case _ =>
      assert s.queue == r.queue && s.current == r.current;
      NoMoreKeepsUnique(r, s);
  }

  lemma OthersKeepVideos(r: Room, op: Op, now: real)
    requires Possible(r, op)
    requires op.ClockRequest? || op.CastVote? || op.Leave? || op.SetName? || op.SetTitle? || op.SetDescription? ||
             op.SetVisibility? || op.SetOwner? || op.SetAutoSkip? || op.SetRestoreBehavior? || op.SetMode? ||
             op.SetEnableVoteSkip? || op.SetGrants? || op.SetSegments? || op.Shuffle?
    ensures Performed(r, op, now).current == r.current
    ensures multiset(Performed(r, op, now).queue) == multiset(r.queue)
  {
  }

  lemma SameVideosKeepUnique(r: Room, s: Room)
    requires NoneTwice(r) && s.current == r.current && multiset(s.queue) == multiset(r.queue)
    ensures NoneTwice(s)
  {
    forall v
      ensures TimesIn(s, v) <= TimesIn(r, v)
    {
      TimesInPermutation(s.queue, r.queue, v);
    }
    NoMoreKeepsUnique(r, s);
  }

  /** Every request and update keeps each video in the room at most once exactly if its guard
      holds. */
  lemma OpUniqueExactly(r: Room, op: Op, now: real)
    requires NoneTwice(r) && Possible(r, op)
    ensures NoneTwice(Performed(r, op, now)) <==> Guard(r, op)
  {
    match op
    case Update => AdvancingKeepsUnique(r, None, 0, now);
    case Skip(who, voters) => AdvancingKeepsUnique(r, who, voters, now);
    case Add(_, _, _) => AdditionsUniqueExactly(r, op, now);
    case AddMany(_) => AdditionsUniqueExactly(r, op, now);
    case Remove(_) => EditsKeepUnique(r, op, now);
    case Reorder(_, _) => EditsKeepUnique(r, op, now);
    case UpdateItem(_, _) => EditsKeepUnique(r, op, now);
    case PlayNow(video, subtitle, fetched, allowed) => PlayNowUniqueExactly(r, video, subtitle, fetched, allowed, now);
    case Restore(discard) => RestoreUniqueExactly(r, discard);
    case Undo(event, allowed) => UndoUniqueExactly(r, event, allowed, now);
    case _ =>
      OthersKeepVideos(r, op, now);
      SameVideosKeepUnique(r, Performed(r, op, now));
  }

  // ---------------------------------------------------------------- histories

  datatype Request = Request(now: real, op: Op)

  function RoomAfter(r: Room, requests: seq<Request>): Room {
    if requests == [] then r
    else Performed(RoomAfter(r, requests[..|requests| - 1]), requests[|requests| - 1].op, requests[|requests| - 1].now)
  }

  ghost predicate PossibleHistory(r: Room, requests: seq<Request>) {
    forall k :: 0 <= k < |requests| ==> Possible(RoomAfter(r, requests[..k]), requests[k].op)
  }

  ghost predicate AlwaysNoneTwice(r: Room, requests: seq<Request>) {
    forall k :: 0 <= k <= |requests| ==> NoneTwice(RoomAfter(r, requests[..k]))
  }

  ghost predicate AlwaysGuarded(r: Room, requests: seq<Request>) {
    forall k :: 0 <= k < |requests| ==> Guard(RoomAfter(r, requests[..k]), requests[k].op)
  }

  lemma RoomOneMore(r: Room, requests: seq<Request>, k: nat)
    requires k < |requests|
    ensures RoomAfter(r, requests[..k + 1]) == Performed(RoomAfter(r, requests[..k]), requests[k].op, requests[k].now)
  {
    assert requests[..k + 1][..k] == requests[..k];
  }

  lemma {:induction false} GuardedUpTo(r: Room, requests: seq<Request>, k: nat)
    requires NoneTwice(r) && PossibleHistory(r, requests) && AlwaysGuarded(r, requests) && k <= |requests|
    ensures NoneTwice(RoomAfter(r, requests[..k]))
  {
    if k > 0 {
      GuardedUpTo(r, requests, k - 1);
      RoomOneMore(r, requests, k - 1);
      OpUniqueExactly(RoomAfter(r, requests[..k - 1]), requests[k - 1].op, requests[k - 1].now);
    }
  }

  /** In every history of requests, updates, undos and restores, no video is in the room twice at any
      point exactly if every operation of the history is guarded. */
  lemma HistoryUniqueExactly(r: Room, requests: seq<Request>)
    requires NoneTwice(r) && PossibleHistory(r, requests)
    ensures AlwaysNoneTwice(r, requests) <==> AlwaysGuarded(r, requests)
  {
    if AlwaysGuarded(r, requests) {
      forall k | 0 <= k <= |requests|
        ensures NoneTwice(RoomAfter(r, requests[..k]))
      {
        GuardedUpTo(r, requests, k);
      }
    }
    if AlwaysNoneTwice(r, requests) {
      forall k | 0 <= k < |requests|
        ensures Guard(RoomAfter(r, requests[..k]), requests[k].op)
      {
        RoomOneMore(r, requests, k);
        OpUniqueExactly(RoomAfter(r, requests[..k]), requests[k].op, requests[k].now);
      }
    }
  }

  /** The guard of an undone skip fails for every room that plays a queue in order: a skip at
      position zero that is undone puts the video that plays on top of the queue as well. */
  lemma UndoneSkipRepeats(r: Room, now: real, later: real)
    requires (r.mode.Manual? || r.mode.Vote?) && !r.enableVoteSkip
    requires r.current.Some? && r.queue != [] && Shown(r.clock, now) == 0.0
    ensures var skipped := Performed(r, Skip(None, 0), now);
            var undone := Performed(skipped, Undo(SkipEvent(r.current, Some(0.0)), true), later);
            && undone.current == Some(r.queue[0]) && undone.queue == r.queue
            && !NoneTwice(undone)
  {
    PlainSkip(r, now);
    var skipped := Skipped(r, None, 0, now);
    var undone := SkipUndone(skipped, r.current, Some(0.0), later);
    assert undone.queue == r.queue && undone.current == Some(r.queue[0]);
    FirstCountedTwice(undone);
  }

  lemma PlainSkip(r: Room, now: real)
    requires (r.mode.Manual? || r.mode.Vote?) && !r.enableVoteSkip
    requires r.current.Some? && r.queue != []
    ensures Skipped(r, None, 0, now).current == Some(r.queue[0]) && Skipped(r, None, 0, now).queue == r.queue[1..]
  {
    assert VotesCleared(r) == r && Requeued(r) == r;
  }

  lemma FirstCountedTwice(r: Room)
    requires r.queue != [] && r.current == Some(r.queue[0])
    ensures !NoneTwice(r)
  {
    CountedWhenFound(r.queue, r.queue[0].video);
    assert TimesIn(r, r.queue[0].video) >= 2;
  }
}
