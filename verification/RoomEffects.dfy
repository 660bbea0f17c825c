/** What each request leaves of every part of a room that it touches, and that it leaves the rest
    alone. */
module RoomEffects {
  import opened Options
  import opened VideoQueues
  import opened PlaybackClock
  import opened RoomState
  import opened QueueModes

  /** Nothing differs but what plays, how, the votes to skip, and what is marked. */
  ghost predicate SameSettings(a: Room, b: Room) {
    && a.profile == b.profile && a.mode == b.mode && a.grants == b.grants
    && a.enableVoteSkip == b.enableVoteSkip && a.prevQueue == b.prevQueue && a.votes == b.votes
  }

  // ---------------------------------------------------------------- trims, ends and keys

  /** Trimming an item takes away where it is to start and to end, and nothing else. */
  lemma TrimmedPlaysWhole(item: QueueItem)
    ensures Trimmed(item).startAt.None? && Trimmed(item).endAt.None?
    ensures Trimmed(item).video == item.video && Trimmed(item).length == item.length
    ensures Trimmed(item).subtitleUrl == item.subtitleUrl
    ensures Trimmed(item) == item <==> item.startAt.None? && item.endAt.None?
  {
  }

  /** Two videos share their votes exactly if one of the services is the other one followed by some
      text, and the ids differ by that same text in front. */
  lemma VotesSharedExactly(a: VideoId, b: VideoId)
    ensures VoteKey(a) == VoteKey(b) <==>
            || (exists t: string :: b.service == a.service + t && a.id == t + b.id)
            || (exists t: string :: a.service == b.service + t && b.id == t + a.id)
  {
    if VoteKey(a) == VoteKey(b) {
      var key := VoteKey(a);
      assert key[..|a.service|] == a.service && key[|a.service|..] == a.id;
      assert key[..|b.service|] == b.service && key[|b.service|..] == b.id;
      if |a.service| <= |b.service| {
        var t := key[|a.service|..|b.service|];
        assert b.service == a.service + t && a.id == t + b.id;
      } else {
        var t := key[|b.service|..|a.service|];
        assert a.service == b.service + t && b.id == t + a.id;
      }
    }
    SharedText(a, b);
    SharedText(b, a);
  }

  lemma SharedText(a: VideoId, b: VideoId)
    ensures (exists t: string :: b.service == a.service + t && a.id == t + b.id) ==> VoteKey(a) == VoteKey(b)
  {
    if exists t: string :: b.service == a.service + t && a.id == t + b.id {
      var t: string :| b.service == a.service + t && a.id == t + b.id;
      assert a.service + (t + b.id) == (a.service + t) + b.id;
    }
  }

  /** Different videos of one service never share their votes. */
  lemma OneServiceKeepsVotesApart(a: VideoId, b: VideoId)
    requires a.service == b.service
    ensures VoteKey(a) == VoteKey(b) <==> a == b
  {
    if VoteKey(a) == VoteKey(b) {
      assert a.id == VoteKey(a)[|a.service|..] == b.id;
    }
  }

  // ---------------------------------------------------------------- advancing

  /** The clock after an advance: in disc-jockey mode a current video starts again at zero and keeps its
      speed; otherwise the next video starts at its start, at speed 1, and plays exactly if the room
      played; a room that runs out of videos stops, and one that was idle already goes back to speed 1. */
  lemma AdvanceClock(r: Room, now: real)
    ensures var clock := Dequeued(r, now).clock;
            if r.current.Some? && r.mode.Dj? then
              clock == Clock(0.0, Some(now), r.clock.playing, r.clock.speed)
            else if r.queue != [] then
              clock == Clock(StartOf(r.queue[0]), Some(now), r.clock.playing, 1.0)
            else if r.current.Some? && r.mode.Loop? then
              clock == Clock(0.0, Some(now), r.clock.playing, 1.0)
            else if r.current.Some? then
              clock == Clock(0.0, Some(now), false, 1.0)
            else
              clock == r.clock.(speed := 1.0)
  {
    var v := VotesCleared(r);
    var q := Requeued(v);
    if r.current.Some? && r.mode.Loop? {
      assert q.queue == r.queue + [Trimmed(r.current.value)];
    } else {
      assert q.queue == r.queue;
    }
  }

  function StartOf(item: QueueItem): real {
    match item.startAt
    case Some(at) => at
    case None => 0.0
  }

  /** So what an advance starts is shown at its start, and never before or after it. */
  lemma AdvanceShows(r: Room, now: real)
    requires r.current.Some? || r.queue != []
    ensures Shown(Dequeued(r, now).clock, now) ==
            if (r.current.Some? && r.mode.Dj?) || r.queue == [] then 0.0 else StartOf(r.queue[0])
  {
    AdvanceClock(r, now);
  }

  /** Nothing of the room's settings, votes and stored queue differs, nor the votes to skip. */
  ghost predicate SameRest(a: Room, b: Room) {
    SameSettings(a, b) && a.votesToSkip == b.votesToSkip
  }

  lemma EndLeavesRest(r: Room, now: real)
    ensures SameRest(r, Stopped(r, now)) && Stopped(r, now).segments == []
    ensures SameRest(r, Idle(r)) && Idle(r).segments == []
  {
  }

  lemma LoadLeavesRest(r: Room, now: real)
    requires r.queue != []
    ensures SameRest(r, Loaded(r, now)) && Loaded(r, now).segments == []
  {
  }

  lemma RequeueLeavesRest(r: Room)
    ensures SameRest(r, Requeued(r)) && Requeued(r).segments == r.segments && Requeued(r).current == r.current
    ensures SameSettings(r, VotesCleared(r)) && VotesCleared(r).segments == r.segments
    ensures VotesCleared(r).current == r.current
  {
  }

  /** Apart from what plays, an advance forgets the votes to skip, if there is such a vote, and the
      segments, unless the same video starts over. */
  lemma AdvanceLeavesRest(r: Room, now: real)
    ensures SameSettings(r, Dequeued(r, now))
    ensures Dequeued(r, now).votesToSkip == if r.enableVoteSkip then {} else r.votesToSkip
    ensures Dequeued(r, now).segments == if r.current.Some? && r.mode.Dj? then r.segments else []
  {
    var v := VotesCleared(r);
    var q := Requeued(v);
    RequeueLeavesRest(r);
    RequeueLeavesRest(v);
    EndLeavesRest(q, now);
    if q.queue != [] {
      LoadLeavesRest(q, now);
    }
  }

  // ---------------------------------------------------------------- subtitles

  lemma {:induction false} LastPartSplit(s: string) returns (front: string)
    ensures s == front + LastPart(s) && '.' !in LastPart(s)
    ensures front == "" || front[|front| - 1] == '.'
    decreases |s|
  {
    if s == "" || s[|s| - 1] == '.' {
      front := s;
    } else {
      var less, last := s[..|s| - 1], s[|s| - 1];
      front := LastPartSplit(less);
      assert s == less + [last];
      assert front + LastPart(less) + [last] == front + (LastPart(less) + [last]);
    }
  }

  lemma {:induction false} LastPartBehindDot(front: string, back: string)
    requires '.' !in back
    ensures LastPart(front + "." + back) == back
    ensures LastPart(back) == back
    decreases |back|
  {
    var s := front + "." + back;
    if back == "" {
      assert s[|s| - 1] == '.';
    } else {
      var less := back[..|back| - 1];
      LastPartBehindDot(front, less);
      assert s[..|s| - 1] == front + "." + less;
      assert s[|s| - 1] == back[|back| - 1];
      assert back == less + [back[|back| - 1]];
    }
  }

  lemma EndsInVttSplit(url: string)
    ensures EndsInVtt(url) <==> exists front: string :: url == front + "." + "vtt"
  {
    if EndsInVtt(url) {
      assert url == url[..|url| - 4] + "." + "vtt";
    }
    if exists front: string :: url == front + "." + "vtt" {
      var front: string :| url == front + "." + "vtt";
      assert url[|url| - 4..] == "." + "vtt" == ".vtt";
    }
  }

  lemma VttIsLastPart(url: string)
    ensures LastPart(url) == "vtt" <==> url == "vtt" || exists front: string :: url == front + "." + "vtt"
  {
    LastPartBehindDot("", "vtt");
    if LastPart(url) == "vtt" {
      var front := LastPartSplit(url);
      if front != "" {
        assert url == front[..|front| - 1] + "." + "vtt";
      }
    }
    if exists front: string :: url == front + "." + "vtt" {
      var front: string :| url == front + "." + "vtt";
      LastPartBehindDot(front, "vtt");
    }
  }

  /** Adding takes a subtitle that is missing, empty, `vtt`, or ends in `.vtt`; editing takes only the
      last. */
  lemma SubtitlesAccepted(url: string)
    ensures SubtitleAccepted(None)
    ensures SubtitleAccepted(Some(url)) <==>
            url == "" || url == "vtt" || exists front: string :: url == front + "." + "vtt"
    ensures SubtitleAccepted(Some(url)) <==> url == "" || url == "vtt" || EndsInVtt(url)
  {
    VttIsLastPart(url);
    EndsInVttSplit(url);
  }

  // ---------------------------------------------------------------- requests on the queue

  /** An addition is accepted exactly if the video asked for is not in the room and its subtitle is one.
      Then what was found is last in the queue, with the subtitle if there is one, and there is nothing
      to restore any more; otherwise nothing changes. */
  lemma AddingExactly(r: Room, asked: VideoId, subtitle: Option<string>, fetched: QueueItem)
    ensures var added := Added(r, asked, subtitle, fetched);
            && (added.reply == Accepted <==>
                (r.current.Some? ==> r.current.value.video != asked) &&
                (forall i :: 0 <= i < |r.queue| ==> r.queue[i].video != asked) && SubtitleAccepted(subtitle))
            && (added.reply != Accepted ==> added.room == r)
            && (added.reply == Accepted ==>
                  && added.room.queue == r.queue + [added.room.queue[|r.queue|]]
                  && added.room.prevQueue.None?
                  && added.room.current == r.current && added.room.clock == r.clock && added.room.votes == r.votes)
  {
    InQueueExactly(r, asked);
  }

  lemma InQueueExactly(r: Room, video: VideoId)
    ensures InQueue(r, video) <==>
            (r.current.Some? && r.current.value.video == video) ||
            exists i :: 0 <= i < |r.queue| && r.queue[i].video == video
  {
    var i := IndexOf(r.queue, video);
    if i.Some? {
      assert r.queue[i.value].video == video;
    }
  }

  /** What is added is what was found, with the subtitle unless that is empty. */
  lemma AddedItem(r: Room, asked: VideoId, subtitle: Option<string>, fetched: QueueItem)
    requires Added(r, asked, subtitle, fetched).reply == Accepted
    ensures var room := Added(r, asked, subtitle, fetched).room;
            |room.queue| == |r.queue| + 1 &&
            var item := room.queue[|r.queue|];
            && item.video == fetched.video && item.length == fetched.length
            && item.startAt == fetched.startAt && item.endAt == fetched.endAt
            && item.subtitleUrl == if subtitle.None? || subtitle.value == "" then fetched.subtitleUrl else subtitle
  {
  }

  /** What is new of a list keeps its order: a list in two parts gives the new ones of either. */
  lemma {:induction false} NewOnesInOrder(r: Room, front: seq<QueueItem>, back: seq<QueueItem>)
    ensures NotYetQueued(r, front + back) == NotYetQueued(r, front) + NotYetQueued(r, back)
    decreases |back|
  {
    if back == [] {
      assert front + back == front;
    } else {
      var less := back[..|back| - 1];
      NewOnesInOrder(r, front, less);
      assert (front + back)[..|front + back| - 1] == front + less;
    }
  }

  lemma NewOne(r: Room, item: QueueItem)
    ensures NotYetQueued(r, [item]) == if InQueue(r, item.video) then [] else [item]
  {
    assert [item][..0] == [];
  }

  /** The addition of a list appends its new ones, and keeps what there is to restore. */
  lemma AddingManyExactly(r: Room, videos: seq<QueueItem>)
    ensures var added := AddedMany(r, videos);
            && (added.reply == Accepted <==> exists i :: 0 <= i < |videos| && !InQueue(r, videos[i].video))
            && (added.reply != Accepted ==> added.room == r)
            && (added.reply == Accepted ==> added.room.queue == r.queue + NotYetQueued(r, videos))
            && added.room.prevQueue == r.prevQueue && added.room.current == r.current
  {
    SomeNew(r, videos);
  }

  lemma {:induction false} SomeNew(r: Room, videos: seq<QueueItem>)
    ensures NotYetQueued(r, videos) != [] <==> exists i :: 0 <= i < |videos| && !InQueue(r, videos[i].video)
    decreases |videos|
  {
    if videos != [] {
      var before := videos[..|videos| - 1];
      SomeNew(r, before);
      if exists i :: 0 <= i < |videos| && !InQueue(r, videos[i].video) {
        var i :| 0 <= i < |videos| && !InQueue(r, videos[i].video);
        assert i < |before| ==> before[i] == videos[i];
      }
      if exists i :: 0 <= i < |before| && !InQueue(r, before[i].video) {
        var i :| 0 <= i < |before| && !InQueue(r, before[i].video);
        assert videos[i] == before[i];
      }
    }
  }

  /** Moving within bounds puts that item there and keeps the others in order; a move onto itself changes
      and marks nothing, even out of bounds; any other move out of bounds is refused. */
  lemma ReorderingExactly(r: Room, from: int, to: int)
    ensures var moved := Reordered(r, from, to);
            && (moved.reply == Accepted <==> from == to || (0 <= from < |r.queue| && 0 <= to < |r.queue|))
            && (from == to || moved.reply != Accepted ==> moved.room == r)
            && (moved.reply == Accepted && 0 <= from < |r.queue| ==>
                  && |moved.room.queue| == |r.queue| && moved.room.queue[to] == r.queue[from]
                  && RemovedAt(moved.room.queue, to) == RemovedAt(r.queue, from))
            && moved.room.current == r.current && moved.room.clock == r.clock
  {
    if 0 <= from < |r.queue| && 0 <= to < |r.queue| {
      MoveMeaning(r.queue, from, to);
    }
  }

  /** Editing changes the first item of that video in the given fields, keeps its place and all other
      items, and is refused for a missing video or a bad subtitle. */
  lemma EditingExactly(r: Room, video: VideoId, patch: Patch)
    ensures var edited := ItemUpdated(r, video, patch);
            var i := IndexOf(r.queue, video);
            && (edited.reply == Accepted <==>
                i.Some? && (patch.subtitleUrl.Some? ==> EndsInVtt(patch.subtitleUrl.value)))
            && (edited.reply != Accepted ==> edited.room == r)
            && (edited.reply == Accepted ==>
                  && |edited.room.queue| == |r.queue|
                  && (forall j :: 0 <= j < |r.queue| && j != i.value ==> edited.room.queue[j] == r.queue[j])
                  && edited.room.current == r.current && edited.room.clock == r.clock)
  {
  }

  /** An accepted edit shows in the item. */
  lemma EditedItem(r: Room, video: VideoId, patch: Patch)
    requires ItemUpdated(r, video, patch).reply == Accepted
    ensures var i := IndexOf(r.queue, video).value;
            var after := ItemUpdated(r, video, patch).room.queue[i];
            && after.video == video && after.length == r.queue[i].length
            && after.startAt == (if patch.startAt.Some? then patch.startAt else r.queue[i].startAt)
            && after.endAt == (if patch.endAt.Some? then patch.endAt else r.queue[i].endAt)
            && after.subtitleUrl == (if patch.subtitleUrl.Some? then patch.subtitleUrl else r.queue[i].subtitleUrl)
  {
  }

  /** Playing at once does nothing for the video that plays and is denied without the permission. */
  lemma PlayNowRefused(r: Room, video: VideoId, subtitle: Option<string>, fetched: QueueItem, allowed: bool, now: real)
    requires (r.current.Some? && r.current.value.video == video) || !allowed
    ensures var played := PlayedNow(r, video, subtitle, fetched, allowed, now);
            played == Result(r, if r.current.Some? && r.current.value.video == video then Accepted else Denied)
  {
  }

  /** Playing at once, with or without a video that it interrupts: the video, the queued one if there is
      one, plays from the start, and its segments are unknown. */
  lemma PlayNowStarts(r: Room, video: VideoId, subtitle: Option<string>, fetched: QueueItem, now: real)
    requires (r.current.Some? ==> r.current.value.video != video) && SubtitleAccepted(subtitle)
    ensures var played := PlayedNow(r, video, subtitle, fetched, true, now);
            var i := IndexOf(r.queue, video);
            var item := if i.Some? then r.queue[i.value] else fetched;
            var rest := if i.Some? then RemovedAt(r.queue, i.value) else r.queue;
            && played.reply == Accepted
            && played.room.current == Some(WithSubtitle(item, subtitle)) && played.room.segments == []
            && played.room.clock == Clock(0.0, Some(now), r.clock.playing, r.clock.speed)
            && |played.room.queue| == |rest| + (if r.current.Some? then 1 else 0)
            && played.room.queue[|played.room.queue| - |rest|..] == rest
            && SameSettings(r, played.room)
  {
  }

  /** Restoring puts the previous queue behind what is queued, once. */
  lemma RestoringExactly(r: Room, discard: bool)
    ensures var restored := Restored(r, discard);
            && (restored.reply == Accepted <==> r.prevQueue.Some?)
            && restored.room.prevQueue.None?
            && restored.room.queue ==
               r.queue + (if r.prevQueue.Some? && !discard then r.prevQueue.value else [])
            && restored.room.current == r.current && restored.room.clock == r.clock
            && Restored(restored.room, discard) == Result(restored.room, NothingToRestore)
  {
  }

  // ---------------------------------------------------------------- skips, votes and undo

  /** Asking for a skip changes the mind of the one who asks, and of nobody else. */
  lemma ToggledExactly(r: Room, who: ClientId, other: ClientId)
    ensures other in SkipVoteToggled(r, Some(who)).votesToSkip <==>
            if other == who then other !in r.votesToSkip else other in r.votesToSkip
    ensures SkipVoteToggled(r, None) == r
    ensures SkipVoteToggled(r, Some(who)).current == r.current && SkipVoteToggled(r, Some(who)).queue == r.queue
  {
  }

  /** A skip without a video does nothing; one that passes advances as the end of the video does, and
      forgets the segments in every mode. */
  lemma SkippingExactly(r: Room, who: Option<ClientId>, voters: nat, now: real)
    ensures r.current.None? ==> Skipped(r, who, voters, now) == r
    ensures SkipPasses(r, who, voters) ==>
              && Items(Skipped(r, who, voters, now)) == Items(Dequeued(r, now))
              && Skipped(r, who, voters, now).current == Dequeued(r, now).current
              && Skipped(r, who, voters, now).clock == Dequeued(r, now).clock
              && Skipped(r, who, voters, now).segments == []
    ensures r.current.Some? && !SkipPasses(r, who, voters) ==>
              && Items(Skipped(r, who, voters, now)) == Items(r) && Skipped(r, who, voters, now).clock == r.clock
  {
    var voted := if r.enableVoteSkip then SkipVoteToggled(r, who) else r;
    SameAdvance(r, voted, now);
  }

  lemma SameAdvance(r: Room, s: Room, now: real)
    requires s.current == r.current && s.queue == r.queue && s.clock == r.clock && s.mode == r.mode
    ensures Items(Dequeued(s, now)) == Items(Dequeued(r, now))
    ensures Dequeued(s, now).current == Dequeued(r, now).current
    ensures Dequeued(s, now).clock == Dequeued(r, now).clock
  {
    AdvanceClock(r, now);
    AdvanceClock(s, now);
    AdvanceItems(r, now);
    AdvanceItems(s, now);
  }

  /** What plays after an advance is the first of what is left in playing order. */
  lemma AdvanceItems(r: Room, now: real)
    ensures Items(Dequeued(r, now)) ==
            if r.current.Some? && r.mode.Loop? then r.queue + [Trimmed(r.current.value)]
            else if r.current.Some? && r.mode.Dj? then [Trimmed(r.current.value)] + r.queue
            else r.queue
    ensures Dequeued(r, now).current ==
            if Items(Dequeued(r, now)) == [] then None else Some(Items(Dequeued(r, now))[0])
  {
    if r.current.Some? && r.mode.Loop? {
      LoopAdvance(r, now);
    } else if r.current.Some? && r.mode.Dj? {
      DjAdvance(r, now);
    } else {
      PlainAdvance(r, now);
    }
  }

  /** Where skips are not voted on, a client that leaves takes nothing back. */
  lemma LeavingTouchesVotesOnly(r: Room, who: ClientId)
    ensures Left(r, who).votesToSkip == if r.enableVoteSkip then r.votesToSkip - {who} else r.votesToSkip
    ensures Left(r, who) == r.(votes := Left(r, who).votes, votesToSkip := Left(r, who).votesToSkip,
                               dirty := Left(r, who).dirty)
  {
  }

  /** What undo refuses changes nothing: a removed video that went to a place beyond the queue, a seek
      or an addition without the permission, an addition that is not queued. */
  lemma RefusedUndoChangesNothing(r: Room, event: UndoEvent, allowed: bool, now: real)
    ensures Undone(r, event, allowed, now).reply != Accepted ==> Undone(r, event, allowed, now).room == r
    ensures Undone(r, event, allowed, now).reply == Denied <==>
            !allowed && ((event.SeekEvent? && event.prevPosition.Some? && event.prevPosition.value != 0.0) ||
                         (event.AddEvent? && event.asked.Some? && r.queue != []))
    ensures Undone(r, event, allowed, now).reply == BadIndex <==>
            event.RemoveEvent? && event.video.Some? && event.queueIdx.Some? &&
            !(0 <= event.queueIdx.value <= |r.queue|)
  {
  }
}
