/** What the messages and the clients' copies hold, property by property, in the room's own fields. */
module SyncedFields {
  import opened Options
  import opened VideoQueues
  import opened PlaybackClock
  import opened Grants
  import opened RoomState
  import opened DeltaSync

  // ---------------------------------------------------------------- reading a copy

  /** The copy has the property, and has it as the room does. The position is the one that the room
      shows at that time. */
  ghost predicate Mirrors(copy: Fields, r: Room, p: Prop, now: real) {
    p in copy &&
    match p
    case GrantMasks => copy[p].RoleMasks? && copy[p].masks == r.grants
    case CurrentSource => copy[p].Item? && copy[p].item == r.current
    case Queue => copy[p].ItemList? && copy[p].items == r.queue
    case PrevQueue => copy[p].MaybeItems? && copy[p].maybe == r.prevQueue
    case Mode => copy[p].ModeValue? && copy[p].mode == r.mode
    case VideoSegments => copy[p].Segments? && copy[p].segments == r.segments
    case VotesToSkip => copy[p].Ids? && copy[p].ids == r.votesToSkip
    case EnableVoteSkip => copy[p].Flag? && copy[p].flag == r.enableVoteSkip
    case VoteCounts => copy[p].Counts? && Counted(copy[p].counts, r)
    case _ => MirrorsPlayback(copy[p], r, p, now) || MirrorsProfile(copy[p], r, p)
  }

  /** The count of a key is the number of clients that voted for it. */
  ghost predicate Counted(counts: map<string, nat>, r: Room) {
    && (forall key :: key in counts <==> key in r.votes)
    && (forall key :: key in counts ==> counts[key] == |r.votes[key]|)
  }

  ghost predicate MirrorsPlayback(v: Value, r: Room, p: Prop, now: real) {
    match p
    case IsPlaying => v.Flag? && (v.flag <==> r.clock.playing)
    case PlaybackSpeed => v.Number? && v.number == r.clock.speed
    case PlaybackPosition =>
      v.Number? &&
      v.number == r.clock.position +
                  if r.clock.playing && r.clock.start.Some? then (now - r.clock.start.value) * r.clock.speed else 0.0
    case _ => false
  }

  ghost predicate MirrorsProfile(v: Value, r: Room, p: Prop) {
    match p
    case Name => v.Text? && v.text == r.profile.name
    case Title => v.Text? && v.text == r.profile.title
    case Description => v.Text? && v.text == r.profile.description
    case Visibility => v.Text? && v.text == r.profile.visibility
    case IsTemporary => v.Flag? && (v.flag <==> r.profile.temporary)
    case HasOwner => v.Flag? && (v.flag <==> r.profile.owner.Some?)
    case AutoSkipCategories => v.Words? && v.words == r.profile.autoSkip
    case RestoreQueueBehavior => v.Code? && v.code == r.profile.restoreBehavior
    case _ => false
  }

  ghost predicate OfProfile(p: Prop) {
    p in {Name, Title, Description, Visibility, IsTemporary, HasOwner, AutoSkipCategories, RestoreQueueBehavior}
  }

  lemma ProfileMirrored(v: Value, r: Room, p: Prop, now: real)
    requires OfProfile(p)
    ensures MirrorsProfile(v, r, p) <==> v == FieldOf(r, p, now)
  {
  }

  lemma PlaybackMirrored(v: Value, r: Room, p: Prop, now: real)
    requires p in {IsPlaying, PlaybackSpeed, PlaybackPosition}
    ensures MirrorsPlayback(v, r, p, now) <==> v == FieldOf(r, p, now)
  {
  }

  lemma CountsMirrored(counts: map<string, nat>, r: Room)
    ensures Counted(counts, r) <==> counts == VoteCountsOf(r.votes)
  {
    if Counted(counts, r) {
      assert counts.Keys == VoteCountsOf(r.votes).Keys;
    }
  }

  /** The copy mirrors a property exactly if it has what is sent for it. */
  lemma MirrorsExactly(copy: Fields, r: Room, p: Prop, now: real)
    ensures Mirrors(copy, r, p, now) <==> p in copy && copy[p] == FieldOf(r, p, now)
  {
    if p in copy {
      if OfProfile(p) {
        ProfileMirrored(copy[p], r, p, now);
      } else if p in {IsPlaying, PlaybackSpeed, PlaybackPosition} {
        PlaybackMirrored(copy[p], r, p, now);
      } else if p == VoteCounts && copy[p].Counts? {
        CountsMirrored(copy[p].counts, r);
      }
    }
  }

  // ---------------------------------------------------------------- messages

  /** A message has exactly the dirty properties, each as the room has it at that time. */
  lemma MessageMirrors(r: Room, now: real, p: Prop)
    ensures p in Message(r, now) <==> p in r.dirty
    ensures p in r.dirty ==> Mirrors(Message(r, now), r, p, now)
  {
    MirrorsExactly(Message(r, now), r, p, now);
  }

  lemma FullStateMirrors(r: Room, now: real, p: Prop)
    ensures Mirrors(FullState(r, now), r, p, now)
  {
    MirrorsExactly(FullState(r, now), r, p, now);
  }

  /** After a message was sent, nothing is dirty, and nothing else of the room is different. */
  lemma SentOnce(r: Room, now: real)
    ensures Cleaned(r).dirty == {} && Message(Cleaned(r), now) == map[]
    ensures Cleaned(r).(dirty := r.dirty) == r
  {
  }

  // ---------------------------------------------------------------- copies

  /** The client looks for all properties but two. */
  lemma HandledExactly(p: Prop)
    ensures Handled(p) <==> p != AutoSkipCategories && p != RestoreQueueBehavior
  {
  }

  lemma OthersStay(copy: Fields, message: Fields, p: Prop)
    requires p !in message || !Handled(p)
    ensures p in Merged(copy, message) <==> p in copy
    ensures p in copy ==> Merged(copy, message)[p] == copy[p]
  {
  }

  /** What is received of a property that is sent is as the room has it, the position included. */
  lemma ReceivedAsSent(r: Room, p: Prop, now: real)
    requires Copyable(r, p)
    ensures Received(p, FieldOf(r, p, now)) == FieldOf(r, p, now)
  {
    if p == GrantMasks {
      GrantsField(r, now);
      ProgramLimitsOk();
      CopiedExactly(LIMITS, r.grants);
    }
  }

  /** A sync gives the copy every dirty property as the room has it at that time, and the position as
      it is shown then. */
  lemma SyncMirrors(s: Pair, p: Prop, now: real)
    requires Handled(p) && Copyable(s.room, p) && p in s.room.dirty
    ensures Mirrors(Next(s, Sync, now).copy, s.room, p, now)
  {
    SentIsReadable(s.room, now);
    ReceivedAsSent(s.room, p, now);
    MirrorsExactly(Next(s, Sync, now).copy, s.room, p, now);
  }

  /** A join gives the copy everything that the client handles. */
  lemma JoinMirrors(s: Pair, p: Prop, now: real)
    requires Handled(p) && Copyable(s.room, p)
    ensures Mirrors(Next(s, Join, now).copy, s.room, p, now)
  {
    JoinedCopy(s, now, p);
    ReceivedAsSent(s.room, p, now);
    MirrorsExactly(Next(s, Join, now).copy, s.room, p, now);
  }

  lemma AgreesMeansMirrors(s: Pair, p: Prop)
    ensures Agrees(s, p) <==> Mirrors(s.copy, s.room, p, 0.0)
  {
    MirrorsExactly(s.copy, s.room, p, 0.0);
  }

  /** At every point of every run the copy mirrors each tracked property of the room unless it is due to
      be sent, and after every sync it does; the queue as long as every shuffle is guarded. */
  lemma RunMirrors(s: Pair, steps: seq<Timed>, p: Prop)
    requires Tracked(p) && Copyable(s.room, p)
    requires p in s.copy && (p in s.room.dirty || Mirrors(s.copy, s.room, p, 0.0))
    requires p == Queue ==> AlwaysShuffleGuarded(s, steps)
    ensures forall k :: 0 <= k <= |steps| ==>
              p in DeltaSync.After(s, steps[..k]).room.dirty ||
              Mirrors(DeltaSync.After(s, steps[..k]).copy, DeltaSync.After(s, steps[..k]).room, p, 0.0)
    ensures forall k :: 0 <= k < |steps| && steps[k].step.Sync? ==>
              Mirrors(DeltaSync.After(s, steps[..k + 1]).copy, DeltaSync.After(s, steps[..k + 1]).room, p, 0.0)
  {
    AgreesMeansMirrors(s, p);
    RunKeepsAgreement(s, steps, p);
    forall k | 0 <= k <= |steps|
      ensures p in DeltaSync.After(s, steps[..k]).room.dirty ||
              Mirrors(DeltaSync.After(s, steps[..k]).copy, DeltaSync.After(s, steps[..k]).room, p, 0.0)
    {
      assert AgreesUnlessDirty(DeltaSync.After(s, steps[..k]), p);
      AgreesMeansMirrors(DeltaSync.After(s, steps[..k]), p);
    }
    forall k | 0 <= k < |steps| && steps[k].step.Sync?
      ensures Mirrors(DeltaSync.After(s, steps[..k + 1]).copy, DeltaSync.After(s, steps[..k + 1]).room, p, 0.0)
    {
      AgreesMeansMirrors(DeltaSync.After(s, steps[..k + 1]), p);
    }
  }

  // ---------------------------------------------------------------- settings

  /** The property that a settings request asks for, and what it is to be. */
  function Asked(op: Op): Option<(Prop, Value)> {
    match op
    case SetName(x) => Some((Name, Text(x)))
    case SetTitle(x) => Some((Title, Text(x)))
    case SetDescription(x) => Some((Description, Text(x)))
    case SetVisibility(x) => Some((Visibility, Text(x)))
    case SetOwner(x) => Some((HasOwner, Flag(x.Some?)))
    case SetAutoSkip(x) => Some((AutoSkipCategories, Words(x)))
    case SetRestoreBehavior(x) => Some((RestoreQueueBehavior, Code(x)))
    case SetMode(x) => Some((Mode, ModeValue(x)))
    case SetEnableVoteSkip(x) => Some((EnableVoteSkip, Flag(x)))
    case SetSegments(x) => Some((VideoSegments, Segments(x)))
    case _ => None
  }

  /** A setting becomes what was asked for, no other property changes, and the setting is due to be sent
      then, except the restore behaviour. */
  lemma SettingsTakeEffect(r: Room, op: Op, now: real, p: Prop, later: real)
    requires Asked(op).Some?
    ensures TakesEffect(r, op, now, p, later)
  {
    if op.SetName? || op.SetTitle? {
      NamesTakeEffect(r, op, now, p, later);
    } else if op.SetDescription? || op.SetVisibility? {
      TextsTakeEffect(r, op, now, p, later);
    } else if op.SetOwner? {
      OwnerTakesEffect(r, op, now, p, later);
    } else if op.SetAutoSkip? || op.SetRestoreBehavior? {
      ProfileTakesEffect(r, op, now, p, later);
    } else {
      ModesTakeEffect(r, op, now, p, later);
    }
  }

  ghost predicate TakesEffect(r: Room, op: Op, now: real, p: Prop, later: real)
    requires Asked(op).Some?
  {
    var (asked, value) := Asked(op).value;
    var after := Performed(r, op, now);
    && FieldOf(after, p, later) == (if p == asked then value else FieldOf(r, p, later))
    && after.dirty == r.dirty + if op.SetRestoreBehavior? then {} else {asked}
  }

  lemma NamesTakeEffect(r: Room, op: Op, now: real, p: Prop, later: real)
    requires op.SetName? || op.SetTitle?
    ensures TakesEffect(r, op, now, p, later)
  {
  }

  lemma TextsTakeEffect(r: Room, op: Op, now: real, p: Prop, later: real)
    requires op.SetDescription? || op.SetVisibility?
    ensures TakesEffect(r, op, now, p, later)
  {
  }

  lemma OwnerTakesEffect(r: Room, op: Op, now: real, p: Prop, later: real)
    requires op.SetOwner?
    ensures TakesEffect(r, op, now, p, later)
  {
  }

  lemma ProfileTakesEffect(r: Room, op: Op, now: real, p: Prop, later: real)
    requires op.SetAutoSkip? || op.SetRestoreBehavior?
    ensures TakesEffect(r, op, now, p, later)
  {
  }

  lemma ModesTakeEffect(r: Room, op: Op, now: real, p: Prop, later: real)
    requires op.SetMode? || op.SetEnableVoteSkip? || op.SetSegments?
    ensures TakesEffect(r, op, now, p, later)
  {
  }

  /** A request for other grants changes the grants only, and makes them due exactly if something of it
      is carried out. */
  lemma GrantsTakeEffect(r: Room, writes: seq<Write>, now: real)
    ensures var after := Performed(r, SetGrants(writes), now);
            && after.grants == Regranted(LIMITS, r.grants, writes)
            && after.(grants := r.grants, dirty := r.dirty) == r
            && after.dirty == r.dirty + if Changing(r.grants, writes) == [] then {} else {GrantMasks}
  {
    assert Changing(r.grants, writes) == [] ==> Regranted(LIMITS, r.grants, writes) == r.grants;
  }

  // ---------------------------------------------------------------- what is due to be sent

  /** The properties that a request can make due to be sent. */
  function CanMark(op: Op): set<Prop> {
    match op
    case ClockRequest(_) => {IsPlaying, PlaybackPosition, PlaybackSpeed}
    case Update => {CurrentSource, Queue, IsPlaying, PlaybackPosition, PlaybackSpeed, VideoSegments, VotesToSkip}
    case Skip(_, _) => {CurrentSource, Queue, IsPlaying, PlaybackPosition, PlaybackSpeed, VideoSegments, VotesToSkip}
    case Add(_, _, _) => {Queue, PrevQueue}
    case AddMany(_) => {Queue}
    case Remove(_) => {Queue}
    case Reorder(_, _) => {Queue}
    case UpdateItem(_, _) => {Queue}
    case PlayNow(_, _, _, _) => {CurrentSource, Queue, PlaybackPosition, VideoSegments}
    case Restore(_) => {Queue, PrevQueue}
    case CastVote(_, _, _) => {VoteCounts}
    case Leave(_) => {VoteCounts, VotesToSkip}
    case Undo(_, _) => {CurrentSource, Queue, PlaybackPosition}
    case SetGrants(_) => {GrantMasks}
    case Shuffle(_) => {}
    case _ => if Asked(op).Some? then {Asked(op).value.0} else {}
  }

  ghost predicate MarksAtMost(a: Room, b: Room, props: set<Prop>) {
    b.dirty <= a.dirty + props
  }

  lemma AdvanceMarksAtMost(r: Room, now: real)
    ensures MarksAtMost(r, Dequeued(r, now), CanMark(Update))
  {
    var v := VotesCleared(r);
    var q := Requeued(v);
    assert MarksAtMost(r, q, {Queue, VotesToSkip});
    EndMarksAtMost(q, now);
  }

  lemma EndMarksAtMost(r: Room, now: real)
    ensures MarksAtMost(r, Stopped(r, now), CanMark(Update)) && MarksAtMost(r, Idle(r), CanMark(Update))
    ensures r.queue != [] ==> MarksAtMost(r, Loaded(r, now), CanMark(Update))
  {
  }

  lemma UpdateMarksAtMost(r: Room, now: real)
    ensures MarksAtMost(r, Updated(r, now), CanMark(Update))
  {
    AdvanceMarksAtMost(r, now);
  }

  lemma SkipMarksAtMost(r: Room, who: Option<ClientId>, voters: nat, now: real)
    ensures MarksAtMost(r, Skipped(r, who, voters, now), CanMark(Skip(who, voters)))
  {
    AdvanceMarksAtMost(if r.enableVoteSkip then SkipVoteToggled(r, who) else r, now);
  }

  lemma QueueMarksAtMost(r: Room, op: Op, now: real)
    requires op.Add? || op.AddMany? || op.Remove? || op.Reorder? || op.UpdateItem? || op.Restore?
    ensures MarksAtMost(r, Performed(r, op, now), CanMark(op))
  {
  }

  lemma PlayNowMarksAtMost(r: Room, video: VideoId, subtitle: Option<string>, fetched: QueueItem, allowed: bool,
                           now: real)
    ensures MarksAtMost(r, PlayedNow(r, video, subtitle, fetched, allowed, now).room,
                        CanMark(PlayNow(video, subtitle, fetched, allowed)))
  {
  }

  lemma UndoMarksAtMost(r: Room, event: UndoEvent, allowed: bool, now: real)
    ensures MarksAtMost(r, Undone(r, event, allowed, now).room, CanMark(Undo(event, allowed)))
  {
  }

  lemma ClockMarksAtMost(r: Room, e: Event, now: real)
    ensures MarksAtMost(r, Clocked(r, e, now), CanMark(ClockRequest(e)))
  {
  }

  lemma OtherMarksAtMost(r: Room, op: Op, now: real)
    requires op.CastVote? || op.Leave? || op.SetGrants? || op.Shuffle?
    ensures MarksAtMost(r, Performed(r, op, now), CanMark(op))
  {
  }

  /** No request makes anything due to be sent that it has nothing to do with. */
  lemma OpMarksAtMost(r: Room, op: Op, now: real)
    ensures Performed(r, op, now).dirty <= r.dirty + CanMark(op)
  {
    match op
    case Update => UpdateMarksAtMost(r, now);
    case Skip(who, voters) => SkipMarksAtMost(r, who, voters, now);
    case PlayNow(video, subtitle, fetched, allowed) => PlayNowMarksAtMost(r, video, subtitle, fetched, allowed, now);
    case Undo(event, allowed) => UndoMarksAtMost(r, event, allowed, now);
    case ClockRequest(e) => ClockMarksAtMost(r, e, now);
    case _ =>
      if op.Add? || op.AddMany? || op.Remove? || op.Reorder? || op.UpdateItem? || op.Restore? {
        QueueMarksAtMost(r, op, now);
      } else if op.CastVote? || op.Leave? || op.SetGrants? || op.Shuffle? {
        OtherMarksAtMost(r, op, now);
      } else {
        SettingsTakeEffect(r, op, now, Name, now);
      }
  }

  /** Playing what plays and pausing what is paused change nothing, and make nothing due; otherwise
      playing makes just that due, and pausing the position as well. */
  lemma PlayAndPauseMark(r: Room, now: real)
    ensures var played, paused := Clocked(r, Play, now), Clocked(r, Pause, now);
            && (r.clock.playing ==> played == r)
            && (!r.clock.playing ==> paused == r)
            && (!r.clock.playing ==> played.clock.playing && played.dirty == r.dirty + {IsPlaying})
            && (r.clock.playing ==> !paused.clock.playing && paused.dirty == r.dirty + {IsPlaying, PlaybackPosition})
  {
  }
}
