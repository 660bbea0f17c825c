/** A room as an object: fields that requests update in place, setters that mark what they set,
    and the queue, which marks the room whenever it marks itself. */
module Rooms {
  import opened Options
  import opened VideoQueues
  import opened PlaybackClock
  import opened Grants
  import opened RoomState
  import opened DeltaSync
  import opened RoomReload

  class Room {
    var profile: Profile
    var queueMode: QueueMode
    var enableVoteSkip: bool
    var grants: Masks
    var currentSource: Option<QueueItem>
    const queue: VideoQueue
    var prevQueue: Option<seq<QueueItem>>
    var playbackPosition: real
    var playbackStart: Option<real>
    var isPlaying: bool
    var playbackSpeed: real
    var videoSegments: seq<Segment>
    var votes: map<string, set<ClientId>>
    var votesToSkip: set<ClientId>
    var dirty: set<Prop>

    /** A room from its options. `given` are the properties that the options set through their
        setters. A room that always restores its previous queue takes it over when it starts with
        an empty one; a room that never restores forgets it. */
    constructor (profile: Profile, queueMode: QueueMode, enableVoteSkip: bool, grants: Masks,
                 currentSource: Option<QueueItem>, items: seq<QueueItem>, prevQueue: Option<seq<QueueItem>>,
                 clock: Clock, given: set<Prop>)
      ensures Valid() && fresh(queue)
      ensures var takeOver := items == [] && profile.restoreBehavior == ALWAYS && prevQueue.Some?;
              && queue.items == (if takeOver then prevQueue.value else items)
              && this.prevQueue == (if takeOver || profile.restoreBehavior == NEVER then None else prevQueue)
              && dirty >= given + {HasOwner} + (if takeOver then {Queue} else {})
              && View() == RoomState.Room(profile, queueMode, enableVoteSkip, grants, currentSource, queue.items,
                                          this.prevQueue, clock, [], map[], {}, dirty)
      ensures currentSource.None? && items == [] && clock == STILL ==>
                View() == FromStorage(profile, queueMode, enableVoteSkip, grants, prevQueue, dirty)
    {
      this.profile, this.queueMode, this.enableVoteSkip, this.grants := profile, queueMode, enableVoteSkip, grants;
      this.currentSource := currentSource;
      this.playbackPosition, this.playbackStart := clock.position, clock.start;
      this.isPlaying, this.playbackSpeed := clock.playing, clock.speed;
      this.videoSegments, this.votes, this.votesToSkip := [], map[], {};
      this.dirty := given + {HasOwner};
      this.prevQueue := prevQueue;
      this.queue := new VideoQueue(items);
      new;
      if profile.restoreBehavior == NEVER {
        SetPrevQueue(None);
      }
      if |queue.items| == 0 && profile.restoreBehavior == ALWAYS && this.prevQueue.Some? {
        queue.items := queue.items + this.prevQueue.value;
        dirty := dirty + {Queue};
        SetPrevQueue(None);
      }
    }

    ghost function View(): RoomState.Room
      reads this, queue
    {
      RoomState.Room(profile, queueMode, enableVoteSkip, grants, currentSource, queue.items, prevQueue,
                     Clock(playbackPosition, playbackStart, isPlaying, playbackSpeed),
                     videoSegments, votes, votesToSkip, dirty)
    }

    /** The queue is not dirty without the room knowing. */
    ghost predicate Valid()
      reads this, queue
    {
      queue.dirty ==> Queue in dirty
    }

    // -------------------------------------------------------------- setters

    method SetCurrentSource(value: Option<QueueItem>)
      requires Valid()
      modifies this
      ensures Valid() && View() == WithCurrent(old(View()), value)
    {
      currentSource := value;
      dirty := dirty + {CurrentSource};
    }

    method SetIsPlaying(value: bool)
      requires Valid()
      modifies this
      ensures Valid() && View() == old(View()).(clock := old(View()).clock.(playing := value),
                                                dirty := old(dirty) + {IsPlaying})
    {
      isPlaying := value;
      dirty := dirty + {IsPlaying};
    }

    method SetPlaybackPosition(value: real)
      requires Valid()
      modifies this
      ensures Valid() && View() == old(View()).(clock := old(View()).clock.(position := value),
                                                dirty := old(dirty) + {PlaybackPosition})
    {
      playbackPosition := value;
      dirty := dirty + {PlaybackPosition};
    }

    method SetSpeed(value: real)
      requires Valid()
      modifies this
      ensures Valid() && View() == old(View()).(clock := old(View()).clock.(speed := value),
                                                dirty := old(dirty) + {PlaybackSpeed})
    {
      playbackSpeed := value;
      dirty := dirty + {PlaybackSpeed};
    }

    method SetVideoSegments(value: seq<Segment>)
      requires Valid()
      modifies this
      ensures Valid() && View() == WithSegments(old(View()), value)
    {
      videoSegments := value;
      dirty := dirty + {VideoSegments};
    }

    method SetPrevQueue(value: Option<seq<QueueItem>>)
      requires Valid()
      modifies this
      ensures Valid() && View() == WithPrevQueue(old(View()), value)
    {
      if value.None? && prevQueue.None? {
        return;
      }
      prevQueue := value;
      dirty := dirty + {PrevQueue};
    }

    // -------------------------------------------------------------- the queue and its callback

    method OnQueueDirty()
      modifies `dirty
      ensures dirty == old(dirty) + if queue.dirty then {Queue} else {}
    {
      if queue.dirty {
        dirty := dirty + {Queue};
      }
    }

    method Enqueue(videos: seq<QueueItem>)
      requires Valid()
      modifies this, queue
      ensures Valid() && View() == Enqueued(old(View()), videos)
    {
      queue.Enqueue(videos);
      OnQueueDirty();
      assert videos == [] ==> dirty == old(dirty);
    }

    method PushTop(videos: seq<QueueItem>)
      requires Valid() && videos != []
      modifies this, queue
      ensures Valid() && View() == WithQueue(old(View()), videos + old(queue.items))
    {
      queue.PushTop(videos);
      OnQueueDirty();
    }

    method Evict(video: VideoId) returns (r: VideoQueues.Outcome<(nat, QueueItem)>)
      requires Valid()
      modifies this, queue
      ensures Valid()
      ensures r.Done? <==> IndexOf(old(queue.items), video).Some?
      ensures r.Done? ==>
                var i := IndexOf(old(queue.items), video).value;
                && r.value == (i, old(queue.items)[i])
                && View() == WithQueue(old(View()), RemovedAt(old(queue.items), i))
      ensures !r.Done? ==> View() == old(View())
    {
      r := queue.Evict(video);
      if r.Done? {
        OnQueueDirty();
      }
    }

    // -------------------------------------------------------------- playback

    method RealPlaybackPosition(now: real) returns (p: real)
      ensures p == Shown(View().clock, now)
    {
      if playbackStart.Some? && isPlaying {
        p := playbackPosition + CurrentPosition(playbackStart.value, now, 0.0, playbackSpeed);
      } else {
        p := playbackPosition;
      }
    }

    method FlushPlaybackPosition(now: real)
      requires Valid()
      modifies this
      ensures Valid() && View() == old(View()).(clock := Flushed(old(View()).clock, now),
                                                dirty := old(dirty) + {PlaybackPosition})
    {
      var p := RealPlaybackPosition(now);
      SetPlaybackPosition(p);
      playbackStart := Some(now);
    }

    method Play(now: real)
      requires Valid()
      modifies this
      ensures Valid() && View() == Clocked(old(View()), Event.Play, now)
    {
      if isPlaying {
        assert dirty == old(dirty) + {};
        return;
      }
      SetIsPlaying(true);
      playbackStart := Some(now);
    }

    method Pause(now: real)
      requires Valid()
      modifies this
      ensures Valid() && View() == Clocked(old(View()), Event.Pause, now)
    {
      if !isPlaying {
        assert dirty == old(dirty) + {};
        return;
      }
      FlushPlaybackPosition(now);
      playbackStart := None;
      SetIsPlaying(false);
      assert dirty == old(dirty) + {IsPlaying, PlaybackPosition};
    }

    method SeekRaw(value: real, now: real)
      requires Valid()
      modifies this
      ensures Valid() && View() == Clocked(old(View()), Event.Seek(value), now)
    {
      SetPlaybackPosition(value);
      playbackStart := Some(now);
    }

    method SetPlaybackSpeed(speed: real, now: real)
      requires Valid()
      modifies this
      ensures Valid() && View() == Clocked(old(View()), Event.SetSpeed(speed), now)
    {
      FlushPlaybackPosition(now);
      SetSpeed(speed);
      assert dirty == old(dirty) + {PlaybackPosition, PlaybackSpeed};
    }

    // -------------------------------------------------------------- the next video

    method ClearSegments()
      requires Valid()
      modifies this
      ensures Valid() && View() == SegmentsCleared(old(View()))
    {
      if |videoSegments| > 0 {
        SetVideoSegments([]);
      }
    }

    method StartClock(startAt: real, now: real)
      requires Valid()
      modifies this
      ensures Valid() && View() == Clocked(old(View()), Load(startAt), now)
    {
      SetPlaybackPosition(startAt);
      playbackStart := Some(now);
      SetSpeed(1.0);
      assert dirty == old(dirty) + {PlaybackPosition, PlaybackSpeed};
    }

    method LoadNext(now: real)
      requires Valid() && queue.items != []
      modifies this, queue
      ensures Valid() && View() == Loaded(old(View()), now)
    {
      var item := queue.Dequeue();
      OnQueueDirty();
      SetCurrentSource(item);
      StartClock(if item.value.startAt.Some? then item.value.startAt.value else 0.0, now);
      ClearSegments();
    }

    method StopPlaying(now: real)
      requires Valid()
      modifies this
      ensures Valid() && View() == Stopped(old(View()), now)
    {
      var wasPlaying := isPlaying;
      if isPlaying {
        SetIsPlaying(false);
      }
      SetPlaybackPosition(0.0);
      playbackStart := Some(now);
      SetCurrentSource(None);
      SetSpeed(1.0);
      assert dirty == old(dirty) + ({PlaybackPosition, PlaybackSpeed} + if wasPlaying then {IsPlaying} else {}) +
                      {CurrentSource};
      ClearSegments();
    }

    method ClearSkipVotes()
      requires Valid()
      modifies this
      ensures Valid() && View() == VotesCleared(old(View()))
    {
      if enableVoteSkip {
        votesToSkip := {};
        dirty := dirty + {VotesToSkip};
      }
    }

    method RestartCurrent(now: real)
      requires Valid() && currentSource.Some?
      modifies this
      ensures Valid()
      ensures View() == Clocked(WithCurrent(old(View()), Some(Trimmed(old(currentSource).value))), Restart, now)
    {
      SetCurrentSource(Some(Trimmed(currentSource.value)));
      SetPlaybackPosition(0.0);
      playbackStart := Some(now);
    }

    method DequeueNext(now: real)
      requires Valid()
      modifies this, queue
      ensures Valid() && View() == Dequeued(old(View()), now)
    {
      ClearSkipVotes();
      if currentSource.Some? {
        if queueMode.Dj? {
          RestartCurrent(now);
          return;
        } else if queueMode.Loop? {
          Enqueue([Trimmed(currentSource.value)]);
        }
      }
      if |queue.items| > 0 {
        LoadNext(now);
      } else if currentSource.Some? {
        StopPlaying(now);
      } else {
        SetSpeed(1.0);
        ClearSegments();
      }
    }

    method Update(now: real)
      requires Valid()
      modifies this, queue
      ensures Valid() && View() == Updated(old(View()), now)
    {
      var position := RealPlaybackPosition(now);
      if (currentSource.None? && |queue.items| > 0) ||
         (currentSource.Some? && isPlaying && position > EndOf(currentSource.value))
      {
        DequeueNext(now);
      }
      SortByVotes();
    }

    method SortByVotes()
      requires Valid()
      modifies this, queue
      ensures Valid() && View() == SortedByVotes(old(View()))
    {
      if queueMode.Vote? {
        queue.OrderBy(VotesFor(votes));
        OnQueueDirty();
        assert queue.items == old(queue.items) ==> dirty == old(dirty);
      }
    }

    // -------------------------------------------------------------- requests

    method IsVideoInQueue(video: VideoId) returns (found: bool)
      ensures found <==> InQueue(View(), video)
    {
      if currentSource.Some? && currentSource.value.video == video {
        return true;
      }
      var i := queue.FindIndex(video);
      found := i.Some?;
    }

    method AddToQueue(asked: VideoId, subtitle: Option<string>, fetched: QueueItem) returns (reply: Reply)
      requires Valid()
      modifies this, queue
      ensures Valid() && Result(View(), reply) == Added(old(View()), asked, subtitle, fetched)
    {
      var found := IsVideoInQueue(asked);
      if found {
        return AlreadyQueued;
      }
      if !SubtitleAccepted(subtitle) {
        return BadSubtitle;
      }
      Enqueue([WithSubtitle(fetched, subtitle)]);
      SetPrevQueue(None);
      reply := Accepted;
    }

    /** Drops the videos that are queued already. */
    method WithoutQueued(fetched: seq<QueueItem>) returns (videos: seq<QueueItem>)
      ensures videos == NotYetQueued(View(), fetched)
    {
      videos := fetched;
      var i := 0;
      ghost var seen := 0;
      while i < |videos|
        invariant i <= |videos| && seen <= |fetched|
        invariant videos[..i] == NotYetQueued(View(), fetched[..seen])
        invariant videos[i..] == fetched[seen..]
        decreases |videos| - i
      {
        assert videos[i] == videos[i..][0] == fetched[seen..][0];
        assert videos[i + 1..] == videos[i..][1..] == fetched[seen..][1..];
        assert fetched[..seen + 1][..seen] == fetched[..seen];
        var found := IsVideoInQueue(videos[i].video);
        if found {
          videos := videos[..i] + videos[i + 1..];
        } else {
          i := i + 1;
        }
        seen := seen + 1;
      }
      assert videos[..i] == videos && fetched[..seen] == fetched;
    }

    method AddManyToQueue(fetched: seq<QueueItem>) returns (reply: Reply)
      requires Valid()
      modifies this, queue
      ensures Valid() && Result(View(), reply) == AddedMany(old(View()), fetched)
    {
      var videos := WithoutQueued(fetched);
      if |videos| == 0 {
        return AlreadyQueued;
      }
      Enqueue(videos);
      reply := Accepted;
    }

    method RemoveFromQueue(video: VideoId) returns (reply: Reply, event: UndoEvent)
      requires Valid()
      modifies this, queue
      ensures Valid() && Result(View(), reply) == Removed(old(View()), video)
      ensures reply == Accepted ==>
                var i := IndexOf(old(queue.items), video).value;
                event == RemoveEvent(Some(old(queue.items)[i]), Some(i))
    {
      var r := Evict(video);
      if r.Done? {
        reply, event := Accepted, RemoveEvent(Some(r.value.1), Some(r.value.0));
      } else {
        reply, event := NotQueued, OtherEvent;
      }
    }

    method ReorderQueue(from: int, to: int) returns (reply: Reply)
      requires Valid()
      modifies this, queue
      ensures Valid() && Result(View(), reply) == Reordered(old(View()), from, to)
    {
      var r := queue.Move(from, to);
      if !r.Done? {
        return BadIndex;
      }
      if from != to {
        OnQueueDirty();
      }
      reply := Accepted;
    }

    method UpdateQueueItem(video: VideoId, patch: Patch) returns (reply: Reply)
      requires Valid()
      modifies this, queue
      ensures Valid() && Result(View(), reply) == ItemUpdated(old(View()), video, patch)
    {
      if patch.subtitleUrl.Some? && !EndsInVtt(patch.subtitleUrl.value) {
        return BadSubtitle;
      }
      var r := queue.Update(video, patch);
      if !r.Done? {
        return NotQueued;
      }
      OnQueueDirty();
      reply := Accepted;
    }

    /** The queue is not marked. */
    method Shuffle(shuffled: seq<QueueItem>)
      requires Valid() && multiset(shuffled) == multiset(queue.items)
      modifies queue
      ensures Valid() && View() == old(View()).(queue := shuffled)
    {
      queue.Shuffle(shuffled);
    }

    method PlayNow(video: VideoId, subtitle: Option<string>, fetched: QueueItem, allowed: bool, now: real)
      returns (reply: Reply)
      requires Valid()
      modifies this, queue
      ensures Valid() && Result(View(), reply) == PlayedNow(old(View()), video, subtitle, fetched, allowed, now)
    {
      if currentSource.Some? && currentSource.value.video == video {
        return Accepted;
      }
      if !allowed {
        return Denied;
      }
      var r := Evict(video);
      var videoToPlay := if r.Done? then r.value.1 else fetched;
      if !SubtitleAccepted(subtitle) {
        return BadSubtitle;
      }
      if currentSource.Some? {
        var position := RealPlaybackPosition(now);
        PushTop([currentSource.value.(startAt := Some(position))]);
      }
      StartNow(WithSubtitle(videoToPlay, subtitle), now);
      reply := Accepted;
    }

    method StartNow(item: QueueItem, now: real)
      requires Valid()
      modifies this
      ensures Valid()
      ensures View() ==
              Marked(WithSegments(Clocked(WithCurrent(old(View()), Some(item)), Restart, now), []), {Queue})
    {
      SetCurrentSource(Some(item));
      dirty := dirty + {Queue};
      SetPlaybackPosition(0.0);
      playbackStart := Some(now);
      SetVideoSegments([]);
      assert dirty == old(dirty) + {CurrentSource} + {PlaybackPosition} + {VideoSegments} + {Queue};
    }

    method RestoreQueue(discard: bool) returns (reply: Reply)
      requires Valid()
      modifies this, queue
      ensures Valid() && Result(View(), reply) == Restored(old(View()), discard)
    {
      if prevQueue.None? {
        return NothingToRestore;
      }
      if !discard {
        Enqueue(prevQueue.value);
      }
      SetPrevQueue(None);
      reply := Accepted;
    }

    // -------------------------------------------------------------- skipping, voting, leaving

    method ToggleSkipVote(who: Option<ClientId>)
      requires Valid()
      modifies this
      ensures Valid() && View() == SkipVoteToggled(old(View()), who)
    {
      if who.Some? {
        if who.value in votesToSkip {
          votesToSkip := votesToSkip - {who.value};
        } else {
          votesToSkip := votesToSkip + {who.value};
        }
        dirty := dirty + {VotesToSkip};
      }
    }

    method Skip(who: Option<ClientId>, voters: nat, now: real) returns (event: UndoEvent)
      requires Valid()
      modifies this, queue
      ensures Valid() && View() == Skipped(old(View()), who, voters, now)
      ensures event == if SkipPasses(old(View()), who, voters)
                       then SkipEvent(old(currentSource), Some(Shown(old(View()).clock, now)))
                       else OtherEvent
    {
      event := OtherEvent;
      if currentSource.None? {
        return;
      }
      var shouldSkip := false;
      if enableVoteSkip {
        ToggleSkipVote(who);
        if |votesToSkip| >= Threshold(voters) {
          shouldSkip := true;
        }
      } else {
        shouldSkip := true;
      }
      if shouldSkip {
        var current := currentSource;
        var prevPosition := RealPlaybackPosition(now);
        DequeueNext(now);
        event := SkipEvent(current, Some(prevPosition));
        SetVideoSegments([]);
      }
    }

    method CastVote(who: ClientId, video: VideoId, add: bool)
      requires Valid()
      modifies this
      ensures Valid() && View() == Voted(old(View()), who, video, add)
    {
      var key := VoteKey(video);
      if key in votes {
        if add {
          votes := votes[key := votes[key] + {who}];
        } else {
          votes := votes[key := votes[key] - {who}];
        }
      } else {
        if add {
          votes := votes[key := {who}];
        }
      }
      dirty := dirty + {VoteCounts};
    }

    method RemoveVotes(who: ClientId) returns (any: bool)
      modifies `votes
      ensures any <==> exists key :: key in old(votes) && who in old(votes)[key]
      ensures votes == WithoutVoter(old(votes), who)
    {
      any := false;
      var rest := votes.Keys;
      while rest != {}
        invariant rest <= votes.Keys && votes.Keys == old(votes).Keys
        invariant forall key :: key in votes ==>
                    votes[key] == if key in rest then old(votes)[key] else old(votes)[key] - {who}
        invariant any <==> exists key :: key in old(votes) && key !in rest && who in old(votes)[key]
        decreases rest
      {
        var key :| key in rest;
        if who in votes[key] {
          votes := votes[key := votes[key] - {who}];
          any := true;
        }
        rest := rest - {key};
      }
    }

    method LeaveRoom(who: ClientId)
      requires Valid()
      modifies this
      ensures Valid() && View() == Left(old(View()), who)
    {
      if enableVoteSkip {
        votesToSkip := votesToSkip - {who};
        dirty := dirty + {VotesToSkip};
      }
      if queueMode.Vote? {
        ghost var before := votes;
        var any := RemoveVotes(who);
        if any {
          dirty := dirty + {VoteCounts};
        } else {
          NothingToRemove(before, who);
        }
      }
    }

    // -------------------------------------------------------------- undo

    method UndoSkip(video: Option<QueueItem>, prev: Option<real>, now: real)
      requires Valid()
      modifies this, queue
      ensures Valid() && View() == SkipUndone(old(View()), video, prev, now)
    {
      if currentSource.Some? {
        PushTop([currentSource.value]);
      }
      if video.Some? && Truthy(prev) {
        SetCurrentSource(video);
        SetPlaybackPosition(prev.value);
      }
    }

    method UndoRemove(video: Option<QueueItem>, idx: Option<int>) returns (reply: Reply)
      requires Valid()
      modifies this, queue
      ensures Valid()
      ensures Result(View(), reply) == Undone(old(View()), RemoveEvent(video, idx), true, 0.0)
    {
      reply := Accepted;
      if video.Some? && idx.Some? {
        var r := queue.Insert(video.value, idx.value);
        if r.Done? {
          OnQueueDirty();
        } else {
          reply := BadIndex;
        }
      }
    }

    method Undo(event: UndoEvent, allowed: bool, now: real) returns (reply: Reply)
      requires Valid()
      modifies this, queue
      ensures Valid() && Result(View(), reply) == Undone(old(View()), event, allowed, now)
    {
      reply := Accepted;
      match event
      case SeekEvent(prev) =>
        if Truthy(prev) {
          if !allowed {
            return Denied;
          }
          SeekRaw(prev.value, now);
        }
      case SkipEvent(video, prev) =>
        UndoSkip(video, prev, now);
      case AddEvent(asked) =>
        if |queue.items| > 0 && asked.Some? {
          if !allowed {
            return Denied;
          }
          var removed, _ := RemoveFromQueue(asked.value);
          reply := removed;
        } else {
          SetCurrentSource(None);
        }
      case RemoveEvent(video, idx) =>
        reply := UndoRemove(video, idx);
      case OtherEvent =>
    }

    // -------------------------------------------------------------- unloading and sync

    /** The current video is put in front of the queue itself, which is not marked any more. */
    method OnBeforeUnload(now: real) returns (write: RoomReload.Write)
      requires Valid()
      modifies queue
      ensures Valid() && write == Unload(old(View()), now)
      ensures View() == if profile.temporary then old(View())
                        else old(View()).(queue := CurrentPushed(old(View()), now).queue)
    {
      if profile.temporary {
        return Unwritten;
      }
      if currentSource.Some? {
        var position := RealPlaybackPosition(now);
        queue.items := [currentSource.value.(startAt := Some(position))] + queue.items;
      }
      write := Written(if |queue.items| > 0 then Some(queue.items) else None);
    }

    /** Nothing is sent when nothing is dirty. */
    method Sync(now: real) returns (message: Option<Fields>)
      requires Valid()
      modifies this, queue
      ensures Valid()
      ensures message == if old(dirty) == {} then None else Some(Message(old(View()), now))
      ensures View() == if old(dirty) == {} then old(View()) else Cleaned(old(View()))
    {
      if dirty == {} {
        return None;
      }
      var fields := map p | p in dirty :: FieldNow(p, now);
      assert fields == Message(View(), now);
      message := Some(fields);
      dirty := {};
      queue.dirty := false;
    }

    function FieldNow(p: Prop, now: real): (v: Value)
      reads this, queue
      ensures v == FieldOf(View(), p, now)
    {
      var clock := Clock(playbackPosition, playbackStart, isPlaying, playbackSpeed);
      FieldOf(RoomState.Room(profile, queueMode, enableVoteSkip, grants, currentSource, queue.items, prevQueue,
                             clock, videoSegments, votes, votesToSkip, dirty), p, now)
    }
  }

  lemma NothingToRemove(votes: map<string, set<ClientId>>, who: ClientId)
    requires forall key :: key in votes ==> who !in votes[key]
    ensures WithoutVoter(votes, who) == votes
  {
    forall key | key in votes
      ensures votes[key] - {who} == votes[key]
    {
    }
  }
}
