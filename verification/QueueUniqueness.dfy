/** How often each video is in a room, playing and queued counted together: which operations
    change that, and exactly when an addition puts a video there twice. */
module QueueUniqueness {
  import opened Options
  import opened VideoQueues
  import opened PlaybackClock
  import opened RoomState
  import opened QueueModes

  function Is(item: QueueItem, v: VideoId): nat {
    if item.video == v then 1 else 0
  }

  function Times(items: seq<QueueItem>, v: VideoId): nat {
    if items == [] then 0 else Times(items[..|items| - 1], v) + Is(items[|items| - 1], v)
  }

  function TimesIn(r: Room, v: VideoId): nat {
    Times(r.queue, v) + if r.current.Some? then Is(r.current.value, v) else 0
  }

  ghost predicate NoneTwice(r: Room) {
    forall v :: TimesIn(r, v) <= 1
  }

  // ---------------------------------------------------------------- counting

  lemma {:induction false} TimesAdds(a: seq<QueueItem>, b: seq<QueueItem>, v: VideoId)
    ensures Times(a + b, v) == Times(a, v) + Times(b, v)
    decreases |b|
  {
    if b == [] {
      assert a + b == a;
    } else {
      TimesAdds(a, b[..|b| - 1], v);
      assert (a + b)[..|a + b| - 1] == a + b[..|b| - 1];
    }
  }

  lemma TimesOne(x: QueueItem, v: VideoId)
    ensures Times([x], v) == Is(x, v)
  {
    assert [x][..0] == [];
  }

  lemma TimesInserted(q: seq<QueueItem>, x: QueueItem, i: nat, v: VideoId)
    requires i <= |q|
    ensures Times(Inserted(q, x, i), v) == Times(q, v) + Is(x, v)
  {
    assert q == q[..i] + q[i..];
    TimesAdds(q[..i], q[i..], v);
    TimesAdds(q[..i], [x], v);
    TimesAdds(q[..i] + [x], q[i..], v);
    TimesOne(x, v);
  }

  lemma TimesRemoved(q: seq<QueueItem>, i: nat, v: VideoId)
    requires i < |q|
    ensures Times(q, v) == Times(RemovedAt(q, i), v) + Is(q[i], v)
  {
    InsertUndoesRemove(q, i);
    TimesInserted(RemovedAt(q, i), q[i], i, v);
  }

  lemma TakenOut(q: seq<QueueItem>, x: QueueItem) returns (i: nat)
    requires x in multiset(q)
    ensures i < |q| && q[i] == x
    ensures multiset(RemovedAt(q, i)) == multiset(q) - multiset{x}
  {
    i :| 0 <= i < |q| && q[i] == x;
    InsertUndoesRemove(q, i);
    InsertedItems(RemovedAt(q, i), x, i);
  }

  lemma {:induction false} TimesInPermutation(a: seq<QueueItem>, b: seq<QueueItem>, v: VideoId)
    requires multiset(a) == multiset(b)
    ensures Times(a, v) == Times(b, v)
    decreases |a|
  {
    if a == [] {
      assert |multiset(b)| == |b|;
    } else {
      var x, front := a[|a| - 1], a[..|a| - 1];
      assert a == front + [x];
      var i := TakenOut(b, x);
      TimesInPermutation(front, RemovedAt(b, i), v);
      TimesRemoved(b, i, v);
    }
  }

  lemma {:induction false} CountedWhenFound(q: seq<QueueItem>, v: VideoId)
    ensures Times(q, v) > 0 <==> IndexOf(q, v).Some?
    decreases |q|
  {
    if q != [] {
      CountedWhenFound(q[..|q| - 1], v);
    }
  }

  /** The room's own test for a video is right. */
  lemma InQueueMeansCounted(r: Room, v: VideoId)
    ensures InQueue(r, v) <==> TimesIn(r, v) > 0
  {
    CountedWhenFound(r.queue, v);
  }

  lemma TimesInItems(r: Room, v: VideoId)
    ensures TimesIn(r, v) == Times(Items(r), v)
  {
    if r.current.Some? {
      TimesOne(r.current.value, v);
      TimesAdds([r.current.value], r.queue, v);
    } else {
      assert Items(r) == r.queue;
    }
  }

  // ---------------------------------------------------------------- advancing and updating

  /** An advance drops the current video in the two plain modes and keeps all videos in the
      others. */
  lemma AdvanceTimes(r: Room, now: real, v: VideoId)
    ensures TimesIn(Dequeued(r, now), v) ==
            if r.current.None? || r.mode.Loop? || r.mode.Dj? then TimesIn(r, v) else Times(r.queue, v)
  {
    TimesInItems(Dequeued(r, now), v);
    if r.current.Some? && r.mode.Loop? {
      LoopAdvance(r, now);
      TimesAdds(r.queue, [Trimmed(r.current.value)], v);
      TimesOne(Trimmed(r.current.value), v);
    } else if r.current.Some? && r.mode.Dj? {
      DjAdvance(r, now);
      TimesAdds([Trimmed(r.current.value)], r.queue, v);
      TimesOne(Trimmed(r.current.value), v);
    } else {
      PlainAdvance(r, now);
    }
  }

  lemma UpdateTimes(r: Room, now: real, v: VideoId)
    ensures TimesIn(Updated(r, now), v) == TimesIn(if WantsNext(r, now) then Dequeued(r, now) else r, v)
  {
    var d := if WantsNext(r, now) then Dequeued(r, now) else r;
    UpdateAdvances(r, now);
    TimesInPermutation(Updated(r, now).queue, d.queue, v);
  }

  lemma SkipTimes(r: Room, who: Option<ClientId>, voters: nat, now: real, v: VideoId)
    ensures TimesIn(Skipped(r, who, voters, now), v) ==
            if SkipPasses(r, who, voters) then TimesIn(Dequeued(r, now), v) else TimesIn(r, v)
  {
    if r.current.Some? {
      var w := if r.enableVoteSkip then SkipVoteToggled(r, who) else r;
      AdvanceTimes(w, now, v);
      AdvanceTimes(r, now, v);
      assert TimesIn(Skipped(r, who, voters, now), v) ==
             if SkipPasses(r, who, voters) then TimesIn(Dequeued(w, now), v) else TimesIn(w, v);
    }
  }

  /** Advancing, updating and skipping never put a video there twice. */
  lemma AdvancingKeepsUnique(r: Room, who: Option<ClientId>, voters: nat, now: real)
    requires NoneTwice(r)
    ensures NoneTwice(Dequeued(r, now)) && NoneTwice(Updated(r, now)) && NoneTwice(Skipped(r, who, voters, now))
  {
    forall v
      ensures TimesIn(Dequeued(r, now), v) <= 1
      ensures TimesIn(Updated(r, now), v) <= 1
      ensures TimesIn(Skipped(r, who, voters, now), v) <= 1
    {
      assert TimesIn(r, v) <= 1;
      AdvanceTimes(r, now, v);
      UpdateTimes(r, now, v);
      SkipTimes(r, who, voters, now, v);
    }
  }

  // ---------------------------------------------------------------- editing

  /** Removing takes away one video, reordering and editing none. */
  lemma RemovingTimes(r: Room, video: VideoId, v: VideoId)
    ensures TimesIn(r, v) == TimesIn(Removed(r, video).room, v) +
                             if InQueue(r, video) && Removed(r, video).reply == Accepted && v == video then 1 else 0
  {
    var i := IndexOf(r.queue, video);
    if i.Some? {
      TimesRemoved(r.queue, i.value, v);
    }
  }

  lemma ReorderingTimes(r: Room, from: int, to: int, v: VideoId)
    ensures TimesIn(Reordered(r, from, to).room, v) == TimesIn(r, v)
  {
    if from != to && 0 <= from < |r.queue| && 0 <= to < |r.queue| {
      TimesRemoved(r.queue, from, v);
      TimesInserted(RemovedAt(r.queue, from), r.queue[from], to, v);
    }
  }

  lemma EditingTimes(r: Room, video: VideoId, patch: Patch, v: VideoId)
    ensures TimesIn(ItemUpdated(r, video, patch).room, v) == TimesIn(r, v)
  {
    var i := IndexOf(r.queue, video);
    if i.Some? {
      var p := r.queue[i.value := Patched(r.queue[i.value], patch)];
      TimesRemoved(r.queue, i.value, v);
      TimesRemoved(p, i.value, v);
      assert RemovedAt(p, i.value) == RemovedAt(r.queue, i.value);
    }
  }

  // ---------------------------------------------------------------- adding

  lemma AddedQueue(r: Room, asked: VideoId, subtitle: Option<string>, fetched: QueueItem)
    requires Added(r, asked, subtitle, fetched).reply == Accepted
    ensures Added(r, asked, subtitle, fetched).room.queue == r.queue + [WithSubtitle(fetched, subtitle)]
    ensures Added(r, asked, subtitle, fetched).room.current == r.current
  {
  }

  lemma AddingTimes(r: Room, asked: VideoId, subtitle: Option<string>, fetched: QueueItem, v: VideoId)
    requires Added(r, asked, subtitle, fetched).reply == Accepted
    ensures TimesIn(Added(r, asked, subtitle, fetched).room, v) == TimesIn(r, v) + Is(fetched, v)
  {
    var item := WithSubtitle(fetched, subtitle);
    AddedQueue(r, asked, subtitle, fetched);
    TimesAdds(r.queue, [item], v);
    TimesOne(item, v);
  }

  /** An accepted addition keeps the videos unique if and only if what was found for the request
      is not in the room under its own id, whatever the id asked for. */
  lemma AddingKeepsUnique(r: Room, asked: VideoId, subtitle: Option<string>, fetched: QueueItem)
    requires NoneTwice(r) && Added(r, asked, subtitle, fetched).reply == Accepted
    ensures NoneTwice(Added(r, asked, subtitle, fetched).room) <==> !InQueue(r, fetched.video)
    ensures fetched.video == asked ==> NoneTwice(Added(r, asked, subtitle, fetched).room)
  {
    var after := Added(r, asked, subtitle, fetched).room;
    InQueueMeansCounted(r, fetched.video);
    forall v
      ensures TimesIn(after, v) == TimesIn(r, v) + Is(fetched, v)
    {
      AddingTimes(r, asked, subtitle, fetched, v);
    }
    assert TimesIn(after, fetched.video) == TimesIn(r, fetched.video) + 1;
  }

  lemma {:induction false} NotYetQueuedTimes(r: Room, videos: seq<QueueItem>, v: VideoId)
    ensures Times(NotYetQueued(r, videos), v) == if InQueue(r, v) then 0 else Times(videos, v)
    decreases |videos|
  {
    if videos != [] {
      var last := videos[|videos| - 1];
      NotYetQueuedTimes(r, videos[..|videos| - 1], v);
      TimesAdds(NotYetQueued(r, videos[..|videos| - 1]), if InQueue(r, last.video) then [] else [last], v);
      TimesOne(last, v);
    }
  }

  lemma AddingManyTimes(r: Room, fetched: seq<QueueItem>, v: VideoId)
    ensures TimesIn(AddedMany(r, fetched).room, v) ==
            if InQueue(r, v) then TimesIn(r, v) else Times(fetched, v)
  {
    TimesAdds(r.queue, NotYetQueued(r, fetched), v);
    NotYetQueuedTimes(r, fetched, v);
    InQueueMeansCounted(r, v);
  }

  /** Adding a list keeps the videos unique if and only if no new video is in the list twice: the
      list is compared with the room, not with itself. */
  lemma AddingManyKeepsUnique(r: Room, fetched: seq<QueueItem>)
    requires NoneTwice(r)
    ensures NoneTwice(AddedMany(r, fetched).room) <==> forall v :: !InQueue(r, v) ==> Times(fetched, v) <= 1
  {
    forall v
      ensures TimesIn(AddedMany(r, fetched).room, v) <= 1 <==> (!InQueue(r, v) ==> Times(fetched, v) <= 1)
    {
      assert TimesIn(r, v) <= 1;
      AddingManyTimes(r, fetched, v);
    }
  }

  // ---------------------------------------------------------------- playing at once

  lemma PlayedNowQueue(r: Room, video: VideoId, subtitle: Option<string>, fetched: QueueItem, now: real)
    requires r.current.Some? ==> r.current.value.video != video
    requires SubtitleAccepted(subtitle)
    ensures var i := IndexOf(r.queue, video);
            var taken := if i.Some? then WithQueue(r, RemovedAt(r.queue, i.value)) else r;
            var done := PlayedNow(r, video, subtitle, fetched, true, now);
            && done.reply == Accepted
            && done.room.queue == CurrentPushed(taken, now).queue
            && done.room.current.Some?
            && done.room.current.value.video == if i.Some? then video else fetched.video
  {
  }

  lemma PushedTimes(r: Room, now: real, v: VideoId)
    ensures Times(CurrentPushed(r, now).queue, v) == TimesIn(r, v)
  {
    if r.current.Some? {
      var top := r.current.value.(startAt := Some(Shown(r.clock, now)));
      TimesOne(top, v);
      TimesAdds([top], r.queue, v);
    }
  }

  /** Playing a video at once keeps every video: one that is queued is taken out of the queue,
      the current one is put back on top; only a video that was not queued is new. */
  lemma PlayingNowTimes(r: Room, video: VideoId, subtitle: Option<string>, fetched: QueueItem, now: real, v: VideoId)
    requires r.current.Some? ==> r.current.value.video != video
    requires SubtitleAccepted(subtitle)
    ensures TimesIn(PlayedNow(r, video, subtitle, fetched, true, now).room, v) ==
            TimesIn(r, v) + if InQueue(r, video) then 0 else Is(fetched, v)
  {
    var i := IndexOf(r.queue, video);
    var taken := if i.Some? then WithQueue(r, RemovedAt(r.queue, i.value)) else r;
    if i.Some? {
      TimesRemoved(r.queue, i.value, v);
    }
    PushedTimes(taken, now, v);
    PlayedNowQueue(r, video, subtitle, fetched, now);
  }

  /** Playing a queued video at once loses it from the room exactly if its subtitle is refused: then
      it is taken out of the queue, and what plays stays. */
  lemma RefusedSubtitleLosesVideo(r: Room, video: VideoId, subtitle: Option<string>, fetched: QueueItem, now: real)
    requires IndexOf(r.queue, video).Some?
    requires r.current.Some? ==> r.current.value.video != video
    ensures var after := PlayedNow(r, video, subtitle, fetched, true, now);
            && (TimesIn(after.room, video) == TimesIn(r, video) - 1 <==> !SubtitleAccepted(subtitle))
            && (TimesIn(after.room, video) == TimesIn(r, video) <==> SubtitleAccepted(subtitle))
            && (after.reply == BadSubtitle ==> after.room.current == r.current)
  {
    if SubtitleAccepted(subtitle) {
      PlayingNowTimes(r, video, subtitle, fetched, now, video);
    } else {
      TimesRemoved(r.queue, IndexOf(r.queue, video).value, video);
    }
  }
}
