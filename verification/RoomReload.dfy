/** Unloading a room stores its queue, and a room loaded from storage takes it over: what plays and
    what is queued survives, at the position where it was. */
module RoomReload {
  import opened Options
  import opened VideoQueues
  import opened PlaybackClock
  import opened Grants
  import opened RoomState

  /** What an unload writes as the previous queue; a temporary room writes nothing. */
  datatype Write = Unwritten | Written(prevQueue: Option<seq<QueueItem>>)

  function Unload(r: Room, now: real): Write {
    var items := CurrentPushed(r, now).queue;
    if r.profile.temporary then Unwritten
    else Written(if items == [] then None else Some(items))
  }

  const STILL: Clock := Clock(0.0, None, false, 1.0)

  /** A room made from storage: nothing plays, nobody voted, and the stored queue waits, unless the
      room takes it over at once or never does. */
  function FromStorage(profile: Profile, mode: QueueMode, enableVoteSkip: bool, grants: Masks,
                       stored: Option<seq<QueueItem>>, dirty: set<Prop>): Room {
    var takeOver := profile.restoreBehavior == ALWAYS && stored.Some?;
    Room(profile, mode, enableVoteSkip, grants, None,
         if takeOver then stored.value else [],
         if takeOver || profile.restoreBehavior == NEVER then None else stored,
         STILL, [], map[], {}, dirty)
  }

  /** The queue of a room loaded from storage once it was taken over, by itself or on request. */
  function TakenOver(r: Room): Room {
    if r.prevQueue.None? then r else Restored(r, false).room
  }

  lemma AllEqualStays(q: seq<QueueItem>, key: Key)
    requires forall i :: 0 <= i < |q| ==> key(q[i]) == 0
    ensures Ordered(q, key) == q
  {
    OrderedWhenSorted(q, key);
  }

  /** The first update of a room that waits with a queue plays its first video, in every mode. */
  lemma FirstUpdate(r: Room, now: real)
    requires r.current.None? && r.queue != [] && r.votes == map[]
    ensures Updated(r, now).current == Some(r.queue[0]) && Updated(r, now).queue == r.queue[1..]
    ensures Shown(Updated(r, now).clock, now) ==
            if r.queue[0].startAt.Some? then r.queue[0].startAt.value else 0.0
  {
    var d := Dequeued(r, now);
    FirstAdvance(r, now);
    AllEqualStays(d.queue, VotesFor(d.votes));
  }

  lemma FirstAdvance(r: Room, now: real)
    requires r.current.None? && r.queue != [] && r.votes == map[]
    ensures var d := Dequeued(r, now);
            && d.current == Some(r.queue[0]) && d.queue == r.queue[1..] && d.votes == map[]
            && d.clock == Apply(r.clock, Load(if r.queue[0].startAt.Some? then r.queue[0].startAt.value else 0.0), now)
  {
    assert Requeued(VotesCleared(r)).queue == r.queue;
  }

  /** Unloading a room and loading it again loses nothing: after the first update of the new room
      the same video plays from the position where it was, in front of the same queue; whatever the
      mode, and whether the room takes its queue over by itself or is asked to. */
  lemma ReloadResumes(r: Room, now: real, mode: QueueMode, behavior: nat, dirty: set<Prop>, later: real)
    requires !r.profile.temporary && r.current.Some? && behavior != NEVER
    ensures Unload(r, now).Written?
    ensures var profile := r.profile.(restoreBehavior := behavior);
            var loaded := FromStorage(profile, mode, r.enableVoteSkip, r.grants, Unload(r, now).prevQueue, dirty);
            var playing := Updated(TakenOver(loaded), later);
            && playing.current == Some(r.current.value.(startAt := Some(Shown(r.clock, now))))
            && playing.queue == r.queue
            && Shown(playing.clock, later) == Shown(r.clock, now)
  {
    var profile := r.profile.(restoreBehavior := behavior);
    var stored := Unload(r, now).prevQueue;
    var loaded := FromStorage(profile, mode, r.enableVoteSkip, r.grants, stored, dirty);
    var taken := TakenOver(loaded);
    assert [] + stored.value == stored.value;
    assert taken.queue == stored.value;
    FirstUpdate(taken, later);
  }

  /** A room that was idle comes back idle, and one that never restores comes back empty. */
  lemma ReloadEmpty(r: Room, now: real, mode: QueueMode, dirty: set<Prop>)
    requires !r.profile.temporary
    ensures Unload(r, now).Written?
    ensures Unload(r, now).prevQueue.None? <==> r.current.None? && r.queue == []
    ensures var loaded := FromStorage(r.profile, mode, r.enableVoteSkip, r.grants, Unload(r, now).prevQueue, dirty);
            TakenOver(loaded).queue == [] <==>
            r.profile.restoreBehavior == NEVER || (r.current.None? && r.queue == [])
  {
    var stored := Unload(r, now).prevQueue;
    if stored.Some? {
      assert [] + stored.value == stored.value;
    }
  }

  /** An unload writes nothing exactly for a temporary room; otherwise what plays, to be resumed, in front
      of what is queued. */
  lemma UnloadWrites(r: Room, now: real)
    ensures Unload(r, now).Unwritten? <==> r.profile.temporary
    ensures Unload(r, now).Written? && Unload(r, now).prevQueue.Some? ==>
              var items := Unload(r, now).prevQueue.value;
              && |items| == |r.queue| + (if r.current.Some? then 1 else 0)
              && items[|items| - |r.queue|..] == r.queue
              && (r.current.Some? ==>
                    && items[0].video == r.current.value.video && items[0].endAt == r.current.value.endAt
                    && items[0].startAt == Some(Shown(r.clock, now)))
  {
  }

  /** A room from storage has its settings, plays nothing, stands still at zero, and has no votes. */
  lemma LoadedIsIdle(profile: Profile, mode: QueueMode, enableVoteSkip: bool, grants: Masks,
                     stored: Option<seq<QueueItem>>, dirty: set<Prop>, now: real)
    ensures var loaded := FromStorage(profile, mode, enableVoteSkip, grants, stored, dirty);
            && loaded.profile == profile && loaded.mode == mode && loaded.grants == grants
            && loaded.enableVoteSkip == enableVoteSkip
            && loaded.current.None? && !loaded.clock.playing && Shown(loaded.clock, now) == 0.0
            && loaded.votes == map[] && loaded.votesToSkip == {} && loaded.segments == []
  {
  }

  // ---------------------------------------------------------------- interruptions

  /** A video that is interrupted by another one resumes where it was when that one is skipped,
      in the two modes that play the queue in order; where skips are voted on, by a skip that passes. */
  lemma InterruptionResumes(r: Room, video: VideoId, subtitle: Option<string>, fetched: QueueItem,
                            who: Option<ClientId>, voters: nat, now: real, later: real)
    requires r.current.Some? && r.current.value.video != video
    requires (r.mode.Manual? || r.mode.Vote?) && SubtitleAccepted(subtitle)
    requires SkipPasses(PlayedNow(r, video, subtitle, fetched, true, now).room, who, voters)
    ensures var i := IndexOf(r.queue, video);
            var interrupted := PlayedNow(r, video, subtitle, fetched, true, now).room;
            var back := Skipped(interrupted, who, voters, later);
            && Shown(interrupted.clock, now) == 0.0
            && back.current == Some(r.current.value.(startAt := Some(Shown(r.clock, now))))
            && back.queue == (if i.Some? then RemovedAt(r.queue, i.value) else r.queue)
            && Shown(back.clock, later) == Shown(r.clock, now)
  {
    var i := IndexOf(r.queue, video);
    var rest := if i.Some? then RemovedAt(r.queue, i.value) else r.queue;
    Interrupted(r, video, subtitle, fetched, now);
    var interrupted := PlayedNow(r, video, subtitle, fetched, true, now).room;
    SkipPlaysNext(interrupted, who, voters, later);
    assert interrupted.queue[1..] == rest;
  }

  /** Playing a video at once: it plays from the start, the interrupted one waits on top of the
      queue, and the rest of the queue keeps its order. */
  lemma Interrupted(r: Room, video: VideoId, subtitle: Option<string>, fetched: QueueItem, now: real)
    requires r.current.Some? && r.current.value.video != video && SubtitleAccepted(subtitle)
    ensures var i := IndexOf(r.queue, video);
            var rest := if i.Some? then RemovedAt(r.queue, i.value) else r.queue;
            var interrupted := PlayedNow(r, video, subtitle, fetched, true, now).room;
            && interrupted.current == Some(WithSubtitle(if i.Some? then r.queue[i.value] else fetched, subtitle))
            && interrupted.queue == [r.current.value.(startAt := Some(Shown(r.clock, now)))] + rest
            && interrupted.mode == r.mode && interrupted.enableVoteSkip == r.enableVoteSkip
            && Shown(interrupted.clock, now) == 0.0
  {
  }

  lemma SkipPlaysNext(r: Room, who: Option<ClientId>, voters: nat, now: real)
    requires SkipPasses(r, who, voters) && r.queue != [] && (r.mode.Manual? || r.mode.Vote?)
    ensures var s := Skipped(r, who, voters, now);
            && s.current == Some(r.queue[0]) && s.queue == r.queue[1..]
            && Shown(s.clock, now) == if r.queue[0].startAt.Some? then r.queue[0].startAt.value else 0.0
  {
    var voted := VotesCleared(if r.enableVoteSkip then SkipVoteToggled(r, who) else r);
    assert voted.queue == r.queue && Requeued(voted) == voted;
  }
}
