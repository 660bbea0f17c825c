/** The delta synchronisation of a room to its clients: the room remembers which properties
    changed, a sync sends just those, and the client merges them into its copy. A sync is one
    atomic step. */
module DeltaSync {
  import opened Options
  import opened Permissions
  import opened VideoQueues
  import opened PlaybackClock
  import opened Grants
  import opened RoomState

  datatype Value =
    | Text(text: string)
    | Flag(flag: bool)
    | Number(number: real)
    | Code(code: nat)
    | Words(words: seq<string>)
    | ModeValue(mode: QueueMode)
    | Item(item: Option<QueueItem>)
    | ItemList(items: seq<QueueItem>)
    | MaybeItems(maybe: Option<seq<QueueItem>>)
    | Segments(segments: seq<Segment>)
    | Counts(counts: map<string, nat>)
    | Ids(ids: set<ClientId>)
    | RoleMasks(masks: Masks)

  type Fields = map<Prop, Value>

  /** The value of a property as it is sent. The position is the one shown at the time. */
  function FieldOf(r: Room, p: Prop, now: real): Value {
    match p
    case Name => Text(r.profile.name)
    case Title => Text(r.profile.title)
    case Description => Text(r.profile.description)
    case IsTemporary => Flag(r.profile.temporary)
    case Visibility => Text(r.profile.visibility)
    case Mode => ModeValue(r.mode)
    case CurrentSource => Item(r.current)
    case Queue => ItemList(r.queue)
    case IsPlaying => Flag(r.clock.playing)
    case PlaybackPosition => Number(Shown(r.clock, now))
    case PlaybackSpeed => Number(r.clock.speed)
    case GrantMasks => RoleMasks(r.grants)
    case HasOwner => Flag(r.profile.owner.Some?)
    case VoteCounts => Counts(VoteCountsOf(r.votes))
    case VideoSegments => Segments(r.segments)
    case AutoSkipCategories => Words(r.profile.autoSkip)
    case PrevQueue => MaybeItems(r.prevQueue)
    case RestoreQueueBehavior => Code(r.profile.restoreBehavior)
    case EnableVoteSkip => Flag(r.enableVoteSkip)
    case VotesToSkip => Ids(r.votesToSkip)
  }

  function VoteCountsOf(votes: map<string, set<ClientId>>): map<string, nat> {
    map key | key in votes :: |votes[key]|
  }

  // ---------------------------------------------------------------- messages and the client's copy

  function FullState(r: Room, now: real): Fields {
    map p: Prop :: FieldOf(r, p, now)
  }

  function Message(r: Room, now: real): Fields {
    map p | p in r.dirty :: FieldOf(r, p, now)
  }

  function Cleaned(r: Room): Room {
    r.(dirty := {})
  }

  /** The order in which the client looks for the properties; the last two it never looks for. */
  function Rank(p: Prop): nat {
    match p
    case Name => 0
    case Title => 1
    case Description => 2
    case IsTemporary => 3
    case Visibility => 4
    case Mode => 5
    case IsPlaying => 6
    case PlaybackPosition => 7
    case CurrentSource => 8
    case Queue => 9
    case PrevQueue => 10
    case PlaybackSpeed => 11
    case HasOwner => 12
    case EnableVoteSkip => 13
    case VideoSegments => 14
    case VoteCounts => 15
    case GrantMasks => 16
    case VotesToSkip => 17
    case AutoSkipCategories => 18
    case RestoreQueueBehavior => 19
  }

  predicate Handled(p: Prop) {
    Rank(p) < 18
  }

  /** Grants are not copied: the client makes a new object from them. */
  function Received(p: Prop, value: Value): Value {
    if p == GrantMasks && value.RoleMasks? then RoleMasks(Constructed(LIMITS, value.masks)) else value
  }

  function Merged(copy: Fields, message: Fields): Fields {
    copy + map p | p in message && Handled(p) :: Received(p, message[p])
  }

  /** The grants of the message, if there are any, name no role that there is not. */
  predicate Readable(message: Fields) {
    GrantMasks in message && message[GrantMasks].RoleMasks? ==> OnlyRoles(message[GrantMasks].masks)
  }

  /** A message whose grants cannot be read changes nothing at all. */
  function Delivered(copy: Fields, message: Fields): Fields {
    if Readable(message) then Merged(copy, message) else copy
  }

  /** Exactly the first `n` handled properties have been taken from the message. */
  ghost predicate TakenBelow(update: Fields, message: Fields, n: nat) {
    forall p ::
      && (p in update <==> p in message && Rank(p) < n)
      && (p in update ==> update[p] == Received(p, message[p]))
  }

  method Take(update: Fields, message: Fields, p: Prop, n: nat) returns (more: Fields)
    requires TakenBelow(update, message, n) && Rank(p) == n && p != GrantMasks
    ensures TakenBelow(more, message, n + 1)
  {
    Ranks(p);
    more := if p in message then update[p := message[p]] else update;
  }

  method TakeGrants(update: Fields, message: Fields) returns (read: bool, more: Fields)
    requires TakenBelow(update, message, 16)
    ensures read <==> Readable(message)
    ensures read ==> TakenBelow(more, message, 17)
  {
    Ranks(GrantMasks);
    read, more := true, update;
    if GrantMasks in message {
      var value := message[GrantMasks];
      if value.RoleMasks? {
        var grants := new Grants.Empty();
        var outcome := grants.Reset(value.masks);
        read := outcome.Ok?;
        value := RoleMasks(grants.masks);
      }
      more := update[GrantMasks := value];
    }
  }

  lemma AllTaken(copy: Fields, update: Fields, message: Fields)
    requires TakenBelow(update, message, 18)
    ensures copy + update == Merged(copy, message)
  {
    assert update == map p | p in message && Handled(p) :: Received(p, message[p]);
  }

  lemma Ranks(p: Prop)
    ensures forall q :: Rank(q) == Rank(p) ==> q == p
  {
  }

  class Store {
    var state: Fields

    constructor ()
      ensures state == map[]
    {
      state := map[];
    }

    method Sync(message: Fields) returns (read: bool)
      modifies this
      ensures read <==> Readable(message)
      ensures state == Delivered(old(state), message)
    {
      var update: Fields := map[];
      update := TakeSettings(update, message);
      update := TakePlayback(update, message);
      update := TakeRoomFlags(update, message);
      read, update := TakeDerived(update, message);
      if read {
        AllTaken(state, update, message);
        state := state + update;
      }
    }
  }

  method TakeSettings(taken: Fields, message: Fields) returns (update: Fields)
    requires TakenBelow(taken, message, 0)
    ensures TakenBelow(update, message, 5)
  {
    update := Take(taken, message, Name, 0);
    update := Take(update, message, Title, 1);
    update := Take(update, message, Description, 2);
    update := Take(update, message, IsTemporary, 3);
    update := Take(update, message, Visibility, 4);
  }

  method TakePlayback(taken: Fields, message: Fields) returns (update: Fields)
    requires TakenBelow(taken, message, 5)
    ensures TakenBelow(update, message, 10)
  {
    update := Take(taken, message, Mode, 5);
    update := Take(update, message, IsPlaying, 6);
    update := Take(update, message, PlaybackPosition, 7);
    update := Take(update, message, CurrentSource, 8);
    update := Take(update, message, Queue, 9);
  }

  method TakeRoomFlags(taken: Fields, message: Fields) returns (update: Fields)
    requires TakenBelow(taken, message, 10)
    ensures TakenBelow(update, message, 14)
  {
    update := Take(taken, message, PrevQueue, 10);
    update := Take(update, message, PlaybackSpeed, 11);
    update := Take(update, message, HasOwner, 12);
    update := Take(update, message, EnableVoteSkip, 13);
  }

  method TakeDerived(taken: Fields, message: Fields) returns (read: bool, update: Fields)
    requires TakenBelow(taken, message, 14)
    ensures read <==> Readable(message)
    ensures read ==> TakenBelow(update, message, 18)
  {
    update := Take(taken, message, VideoSegments, 14);
    update := Take(update, message, VoteCounts, 15);
    read, update := TakeGrants(update, message);
    if read {
      update := Take(update, message, VotesToSkip, 17);
    }
  }

  // ---------------------------------------------------------------- everything that changes a room

  datatype Op =
    | ClockRequest(event: Event)
    | Update
    | Skip(who: Option<ClientId>, voters: nat)
    | Add(asked: VideoId, subtitle: Option<string>, fetched: QueueItem)
    | AddMany(videos: seq<QueueItem>)
    | Remove(video: VideoId)
    | Reorder(from: int, to: int)
    | UpdateItem(video: VideoId, patch: Patch)
    | PlayNow(video: VideoId, subtitle: Option<string>, fetched: QueueItem, allowed: bool)
    | Restore(discard: bool)
    | CastVote(voter: ClientId, video: VideoId, add: bool)
    | Leave(voter: ClientId)
    | Undo(event_: UndoEvent, allowed: bool)
    | SetName(text: string)
    | SetTitle(text: string)
    | SetDescription(text: string)
    | SetVisibility(text: string)
    | SetOwner(owner: Option<nat>)
    | SetAutoSkip(words: seq<string>)
    | SetRestoreBehavior(code: nat)
    | SetMode(mode: QueueMode)
    | SetEnableVoteSkip(flag: bool)
    | SetGrants(writes: seq<Write>)
    | SetSegments(segments: seq<Segment>)
    | Shuffle(shuffled: seq<QueueItem>)

  function WithProfile(r: Room, profile: Profile, p: Prop): Room {
    r.(profile := profile, dirty := r.dirty + {p})
  }

  /** A request for other grants, which may ask for nothing that is carried out. */
  function WithGrants(r: Room, writes: seq<Write>): Room {
    if Changing(r.grants, writes) == [] then r
    else r.(grants := Regranted(LIMITS, r.grants, writes), dirty := r.dirty + {GrantMasks})
  }

  function Performed(r: Room, op: Op, now: real): Room {
    match op
    case ClockRequest(e) => Clocked(r, e, now)
    case Update => Updated(r, now)
    case Skip(who, voters) => Skipped(r, who, voters, now)
    case Add(asked, subtitle, fetched) => Added(r, asked, subtitle, fetched).room
    case AddMany(videos) => AddedMany(r, videos).room
    case Remove(video) => Removed(r, video).room
    case Reorder(from, to) => Reordered(r, from, to).room
    case UpdateItem(video, patch) => ItemUpdated(r, video, patch).room
    case PlayNow(video, subtitle, fetched, allowed) => PlayedNow(r, video, subtitle, fetched, allowed, now).room
    case Restore(discard) => Restored(r, discard).room
    case CastVote(voter, video, add) => Voted(r, voter, video, add)
    case Leave(voter) => Left(r, voter)
    case Undo(event, allowed) => Undone(r, event, allowed, now).room
    case SetName(x) => WithProfile(r, r.profile.(name := x), Name)
    case SetTitle(x) => WithProfile(r, r.profile.(title := x), Title)
    case SetDescription(x) => WithProfile(r, r.profile.(description := x), Description)
    case SetVisibility(x) => WithProfile(r, r.profile.(visibility := x), Visibility)
    case SetOwner(x) => WithProfile(r, r.profile.(owner := x), HasOwner)
    case SetAutoSkip(x) => WithProfile(r, r.profile.(autoSkip := x), AutoSkipCategories)
    case SetRestoreBehavior(x) => r.(profile := r.profile.(restoreBehavior := x))
    case SetMode(x) => r.(mode := x, dirty := r.dirty + {Mode})
    case SetEnableVoteSkip(x) => r.(enableVoteSkip := x, dirty := r.dirty + {EnableVoteSkip})
    case SetGrants(writes) => WithGrants(r, writes)
    case SetSegments(x) => WithSegments(r, x)
    case Shuffle(shuffled) => r.(queue := shuffled)
  }

  /** What a run performs is what the methods of the room object implement. */
  lemma PerformsPlayback(r: Room, now: real, who: Option<ClientId>, voters: nat, e: Event, event: UndoEvent, yes: bool)
    ensures Performed(r, Update, now) == Updated(r, now)
    ensures Performed(r, Skip(who, voters), now) == Skipped(r, who, voters, now)
    ensures Performed(r, ClockRequest(e), now) == Clocked(r, e, now)
    ensures Performed(r, Undo(event, yes), now) == Undone(r, event, yes, now).room
    ensures Performed(r, Restore(yes), now) == Restored(r, yes).room
  {
  }

  lemma PerformsVotes(r: Room, now: real, who: ClientId, video: VideoId, yes: bool)
    ensures Performed(r, CastVote(who, video, yes), now) == Voted(r, who, video, yes)
    ensures Performed(r, Leave(who), now) == Left(r, who)
  {
  }

  lemma PerformsEdits(r: Room, now: real, video: VideoId, from: int, to: int, patch: Patch, videos: seq<QueueItem>)
    ensures Performed(r, Remove(video), now) == Removed(r, video).room
    ensures Performed(r, Reorder(from, to), now) == Reordered(r, from, to).room
    ensures Performed(r, UpdateItem(video, patch), now) == ItemUpdated(r, video, patch).room
    ensures Performed(r, AddMany(videos), now) == AddedMany(r, videos).room
  {
  }

  lemma PerformsAdditions(r: Room, now: real, video: VideoId, subtitle: Option<string>, fetched: QueueItem, yes: bool)
    ensures Performed(r, Add(video, subtitle, fetched), now) == Added(r, video, subtitle, fetched).room
    ensures Performed(r, PlayNow(video, subtitle, fetched, yes), now) ==
            PlayedNow(r, video, subtitle, fetched, yes, now).room
  {
  }

  /** The client keeps a copy of these, and they do not vary with time alone. */
  predicate Tracked(p: Prop) {
    Handled(p) && p != PlaybackPosition
  }

  // ---------------------------------------------------------------- every change is marked

  /** Nothing marked is forgotten, and whatever tracked property changed is marked. */
  ghost predicate Marks(a: Room, b: Room) {
    && a.dirty <= b.dirty
    && forall p :: Tracked(p) && p !in b.dirty ==> FieldOf(a, p, 0.0) == FieldOf(b, p, 0.0)
  }

  lemma MarksBoth(a: Room, b: Room, c: Room)
    requires Marks(a, b) && Marks(b, c)
    ensures Marks(a, c)
  {
  }

  lemma QueueMarks(r: Room, queue: seq<QueueItem>)
    ensures Marks(r, WithQueue(r, queue)) && Marks(r, Enqueued(r, queue))
  {
  }

  lemma CurrentMarks(r: Room, current: Option<QueueItem>)
    ensures Marks(r, WithCurrent(r, current))
  {
  }

  lemma SegmentsMark(r: Room, segments: seq<Segment>)
    ensures Marks(r, WithSegments(r, segments)) && Marks(r, SegmentsCleared(r))
  {
  }

  lemma PrevQueueMarks(r: Room, prev: Option<seq<QueueItem>>)
    ensures Marks(r, WithPrevQueue(r, prev))
  {
  }

  lemma ClockMarks(r: Room, e: Event, now: real)
    ensures Marks(r, Clocked(r, e, now))
  {
  }

  lemma MoreMarks(r: Room, props: set<Prop>)
    ensures Marks(r, Marked(r, props))
  {
  }

  lemma VotesClearedMarks(r: Room)
    ensures Marks(r, VotesCleared(r)) && Marks(r, Requeued(r))
  {
    if r.current.Some? {
      QueueMarks(r, [Trimmed(r.current.value)]);
    }
  }

  lemma LoadedMarks(r: Room, now: real)
    requires r.queue != []
    ensures Marks(r, Loaded(r, now))
  {
    var a := WithQueue(r, r.queue[1..]);
    var b := WithCurrent(a, Some(r.queue[0]));
    var c := Clocked(b, Load(if r.queue[0].startAt.Some? then r.queue[0].startAt.value else 0.0), now);
    QueueMarks(r, r.queue[1..]);
    CurrentMarks(a, Some(r.queue[0]));
    MarksBoth(r, a, b);
    ClockMarks(b, Load(if r.queue[0].startAt.Some? then r.queue[0].startAt.value else 0.0), now);
    MarksBoth(r, b, c);
    SegmentsMark(c, []);
    MarksBoth(r, c, SegmentsCleared(c));
  }

  lemma StoppedMarks(r: Room, now: real)
    ensures Marks(r, Stopped(r, now)) && Marks(r, Idle(r))
  {
    var a := Clocked(r, Stop, now);
    var b := WithCurrent(a, None);
    ClockMarks(r, Stop, now);
    CurrentMarks(a, None);
    MarksBoth(r, a, b);
    SegmentsMark(b, []);
    MarksBoth(r, b, Stopped(r, now));
    var idle := r.(clock := r.clock.(speed := 1.0), dirty := r.dirty + {PlaybackSpeed});
    assert Marks(r, idle);
    SegmentsMark(idle, []);
    MarksBoth(r, idle, Idle(r));
  }

  lemma DequeuedMarks(r: Room, now: real)
    ensures Marks(r, Dequeued(r, now))
  {
    var v := VotesCleared(r);
    var q := Requeued(v);
    VotesClearedMarks(r);
    VotesClearedMarks(v);
    MarksBoth(r, v, q);
    if v.current.Some? && v.mode.Dj? {
      var c := WithCurrent(v, Some(Trimmed(v.current.value)));
      CurrentMarks(v, Some(Trimmed(v.current.value)));
      ClockMarks(c, Restart, now);
      MarksBoth(v, c, Clocked(c, Restart, now));
      MarksBoth(r, v, Dequeued(r, now));
    } else {
      StoppedMarks(q, now);
      if q.queue != [] {
        LoadedMarks(q, now);
      }
      MarksBoth(r, q, Dequeued(r, now));
    }
  }

  lemma UpdatedMarks(r: Room, now: real)
    ensures Marks(r, Updated(r, now))
  {
    var d := if WantsNext(r, now) then Dequeued(r, now) else r;
    DequeuedMarks(r, now);
    QueueMarks(d, Ordered(d.queue, VotesFor(d.votes)));
    MarksBoth(r, d, SortedByVotes(d));
  }

  lemma AddedMarks(r: Room, asked: VideoId, subtitle: Option<string>, fetched: QueueItem)
    ensures Marks(r, Added(r, asked, subtitle, fetched).room)
  {
    var q := Enqueued(r, [WithSubtitle(fetched, subtitle)]);
    QueueMarks(r, [WithSubtitle(fetched, subtitle)]);
    PrevQueueMarks(q, None);
    MarksBoth(r, q, WithPrevQueue(q, None));
  }

  lemma RestoredMarks(r: Room, discard: bool)
    ensures Marks(r, Restored(r, discard).room)
  {
    PrevQueueMarks(r, None);
    if r.prevQueue.Some? {
      var q := Enqueued(r, r.prevQueue.value);
      QueueMarks(r, r.prevQueue.value);
      PrevQueueMarks(q, None);
      MarksBoth(r, q, WithPrevQueue(q, None));
    }
  }

  lemma PushedMarks(r: Room, now: real)
    ensures Marks(r, CurrentPushed(r, now))
  {
    if r.current.Some? {
      QueueMarks(r, [r.current.value.(startAt := Some(Shown(r.clock, now)))] + r.queue);
    }
  }

  lemma StartedMarks(r: Room, item: QueueItem, now: real)
    ensures Marks(r, Marked(WithSegments(Clocked(WithCurrent(r, Some(item)), Restart, now), []), {Queue}))
  {
    var a := WithCurrent(r, Some(item));
    var b := Clocked(a, Restart, now);
    var c := WithSegments(b, []);
    CurrentMarks(r, Some(item));
    ClockMarks(a, Restart, now);
    MarksBoth(r, a, b);
    SegmentsMark(b, []);
    MarksBoth(r, b, c);
    MoreMarks(c, {Queue});
    MarksBoth(r, c, Marked(c, {Queue}));
  }

  lemma PlayedNowMarks(r: Room, video: VideoId, subtitle: Option<string>, fetched: QueueItem, allowed: bool, now: real)
    ensures Marks(r, PlayedNow(r, video, subtitle, fetched, allowed, now).room)
  {
    var i := IndexOf(r.queue, video);
    var item := if i.Some? then r.queue[i.value] else fetched;
    var taken := if i.Some? then WithQueue(r, RemovedAt(r.queue, i.value)) else r;
    var pushed := CurrentPushed(taken, now);
    if i.Some? {
      QueueMarks(r, RemovedAt(r.queue, i.value));
    }
    PushedMarks(taken, now);
    MarksBoth(r, taken, pushed);
    StartedMarks(pushed, WithSubtitle(item, subtitle), now);
    MarksBoth(r, pushed,
              Marked(WithSegments(Clocked(WithCurrent(pushed, Some(WithSubtitle(item, subtitle))), Restart, now), []),
                     {Queue}));
  }

  lemma SkippedMarks(r: Room, who: Option<ClientId>, voters: nat, now: real)
    ensures Marks(r, Skipped(r, who, voters, now))
  {
    var v := if r.enableVoteSkip then SkipVoteToggled(r, who) else r;
    assert Marks(r, v);
    var d := Dequeued(v, now);
    DequeuedMarks(v, now);
    MarksBoth(r, v, d);
    SegmentsMark(d, []);
    MarksBoth(r, d, WithSegments(d, []));
  }

  lemma VotedMarks(r: Room, who: ClientId, video: VideoId, add: bool)
    ensures Marks(r, Voted(r, who, video, add))
  {
  }

  lemma LeftMarks(r: Room, who: ClientId)
    ensures Marks(r, Left(r, who))
  {
  }

  lemma SkipUndoneMarks(r: Room, video: Option<QueueItem>, prev: Option<real>, now: real)
    ensures Marks(r, SkipUndone(r, video, prev, now))
  {
    var pushed := if r.current.Some? then WithQueue(r, [r.current.value] + r.queue) else r;
    if r.current.Some? {
      QueueMarks(r, [r.current.value] + r.queue);
    }
    if video.Some? && Truthy(prev) {
      var c := WithCurrent(pushed, video);
      CurrentMarks(pushed, video);
      MarksBoth(r, pushed, c);
      ClockMarks(c, Rewind(prev.value), now);
      MarksBoth(r, c, Clocked(c, Rewind(prev.value), now));
    }
  }

  lemma RemovedMarks(r: Room, video: VideoId)
    ensures Marks(r, Removed(r, video).room)
  {
    if IndexOf(r.queue, video).Some? {
      QueueMarks(r, RemovedAt(r.queue, IndexOf(r.queue, video).value));
    }
  }

  lemma UndoneMarks(r: Room, event: UndoEvent, allowed: bool, now: real)
    ensures Marks(r, Undone(r, event, allowed, now).room)
  {
    match event
    case SeekEvent(prev) =>
      if Truthy(prev) {
        ClockMarks(r, Seek(prev.value), now);
      }
    case SkipEvent(video, prev) =>
      SkipUndoneMarks(r, video, prev, now);
    case AddEvent(asked) =>
      CurrentMarks(r, None);
      if asked.Some? {
        RemovedMarks(r, asked.value);
      }
    case RemoveEvent(video, idx) =>
      if video.Some? && idx.Some? && 0 <= idx.value <= |r.queue| {
        QueueMarks(r, Inserted(r.queue, video.value, idx.value));
      }
    case OtherEvent =>
  }

  lemma TextMarks(r: Room, op: Op, now: real)
    requires op.SetName? || op.SetTitle? || op.SetDescription? || op.SetVisibility?
    ensures Marks(r, Performed(r, op, now))
  {
  }

  lemma ProfileMarks(r: Room, op: Op, now: real)
    requires op.SetOwner? || op.SetAutoSkip? || op.SetRestoreBehavior?
    ensures Marks(r, Performed(r, op, now))
  {
  }

  lemma SettingMarks(r: Room, op: Op, now: real)
    requires op.SetMode? || op.SetEnableVoteSkip? || op.SetGrants?
    ensures Marks(r, Performed(r, op, now))
  {
  }

  lemma ListMarks(r: Room, op: Op, now: real)
    requires op.AddMany? || op.Reorder? || op.UpdateItem?
    ensures Marks(r, Performed(r, op, now))
  {
    match op
    case AddMany(videos) =>
      QueueMarks(r, NotYetQueued(r, videos));
    case Reorder(from, to) =>
      if 0 <= from < |r.queue| && 0 <= to < |r.queue| {
        QueueMarks(r, Moved(r.queue, from, to));
      }
    case UpdateItem(video, patch) =>
      var i := IndexOf(r.queue, video);
      if i.Some? {
        QueueMarks(r, r.queue[i.value := Patched(r.queue[i.value], patch)]);
      }
  }

  /** Every operation but a shuffle marks every tracked property that it changes. */
  lemma OpMarks(r: Room, op: Op, now: real)
    requires !op.Shuffle?
    ensures Marks(r, Performed(r, op, now))
  {
    match op
    case ClockRequest(e) => ClockMarks(r, e, now);
    case Update => UpdatedMarks(r, now);
    case Skip(who, voters) => SkippedMarks(r, who, voters, now);
    case Add(asked, subtitle, fetched) => AddedMarks(r, asked, subtitle, fetched);
    case Remove(video) => RemovedMarks(r, video);
    case PlayNow(video, subtitle, fetched, allowed) => PlayedNowMarks(r, video, subtitle, fetched, allowed, now);
    case Restore(discard) => RestoredMarks(r, discard);
    case CastVote(voter, video, add) => VotedMarks(r, voter, video, add);
    case Leave(voter) => LeftMarks(r, voter);
    case Undo(event, allowed) => UndoneMarks(r, event, allowed, now);
    case SetSegments(segments) => SegmentsMark(r, segments);
    case _ =>
      if op.AddMany? || op.Reorder? || op.UpdateItem? {
        ListMarks(r, op, now);
      } else if op.SetMode? || op.SetEnableVoteSkip? || op.SetGrants? {
        SettingMarks(r, op, now);
      } else if op.SetName? || op.SetTitle? || op.SetDescription? || op.SetVisibility? {
        TextMarks(r, op, now);
      } else {
        ProfileMarks(r, op, now);
      }
  }

  /** A shuffle marks nothing; it changes nothing but the queue. */
  lemma ShuffleChangesQueueOnly(r: Room, shuffled: seq<QueueItem>, p: Prop, now: real)
    requires p != Queue
    ensures FieldOf(Performed(r, Shuffle(shuffled), now), p, now) == FieldOf(r, p, now)
    ensures Performed(r, Shuffle(shuffled), now).dirty == r.dirty
  {
  }

  // ---------------------------------------------------------------- the playback position

  /** The clock was not touched, or the position is due to be sent. */
  ghost predicate TellsPosition(a: Room, b: Room) {
    b.clock == a.clock || PlaybackPosition in b.dirty
  }

  lemma DequeuedTells(r: Room, now: real)
    requires r.current.Some? || r.queue != []
    ensures PlaybackPosition in Dequeued(r, now).dirty
  {
    var q := Requeued(VotesCleared(r));
    assert q.current == r.current && (r.queue != [] ==> q.queue != []);
  }

  lemma UpdatedTells(r: Room, now: real)
    ensures TellsPosition(r, Updated(r, now))
  {
    if WantsNext(r, now) {
      DequeuedTells(r, now);
    }
  }

  lemma SkippedTells(r: Room, who: Option<ClientId>, voters: nat, now: real)
    ensures TellsPosition(r, Skipped(r, who, voters, now))
  {
    if r.current.Some? {
      DequeuedTells(if r.enableVoteSkip then SkipVoteToggled(r, who) else r, now);
    }
  }

  lemma PlayedNowTells(r: Room, video: VideoId, subtitle: Option<string>, fetched: QueueItem, allowed: bool, now: real)
    ensures TellsPosition(r, PlayedNow(r, video, subtitle, fetched, allowed, now).room)
  {
  }

  lemma QueueRequestsTell(r: Room, op: Op, now: real)
    requires op.Add? || op.AddMany? || op.Remove? || op.Reorder? || op.UpdateItem? || op.Restore?
    ensures Performed(r, op, now).clock == r.clock
  {
  }

  lemma SettingsTell(r: Room, op: Op, now: real)
    requires !op.Add? && !op.AddMany? && !op.Remove? && !op.Reorder? && !op.UpdateItem? && !op.Restore?
    requires !op.ClockRequest? && !op.Update? && !op.Skip? && !op.Undo? && !op.PlayNow?
    ensures Performed(r, op, now).clock == r.clock
  {
  }

  /** Whatever makes the shown position jump marks it to be sent; only starting to play does not,
      which makes nothing jump. */
  lemma JumpsAreTold(r: Room, op: Op, now: real)
    ensures PlaybackPosition in Performed(r, op, now).dirty ||
            Shown(Performed(r, op, now).clock, now) == Shown(r.clock, now)
  {
    match op
    case ClockRequest(e) => NoJump(r.clock, e, now);
    case Update => UpdatedTells(r, now);
    case Skip(who, voters) => SkippedTells(r, who, voters, now);
    case Undo(event, allowed) => UndoneTells(r, event, allowed, now);
    case PlayNow(video, subtitle, fetched, allowed) => PlayedNowTells(r, video, subtitle, fetched, allowed, now);
    case _ =>
      if op.Add? || op.AddMany? || op.Remove? || op.Reorder? || op.UpdateItem? || op.Restore? {
        QueueRequestsTell(r, op, now);
      } else {
        SettingsTell(r, op, now);
      }
  }

  lemma UndoneTells(r: Room, event: UndoEvent, allowed: bool, now: real)
    ensures TellsPosition(r, Undone(r, event, allowed, now).room)
  {
  }

  // ---------------------------------------------------------------- whole runs

  /** A room together with one client's copy of it. */
  datatype Pair = Pair(room: Room, copy: Fields)

  datatype Step = Do(op: Op) | Sync | Join

  datatype Timed = Timed(now: real, step: Step)

  /** A sync sends what is dirty, if anything is; a join sends everything. */
  function Next(s: Pair, step: Step, now: real): Pair {
    match step
    case Do(op) => s.(room := Performed(s.room, op, now))
    case Sync =>
      if s.room.dirty == {} then s
      else Pair(Cleaned(s.room), Delivered(s.copy, Message(s.room, now)))
    case Join => s.(copy := Delivered(s.copy, FullState(s.room, now)))
  }

  function After(s: Pair, steps: seq<Timed>): Pair {
    if steps == [] then s
    else
      var last := steps[|steps| - 1];
      Next(After(s, steps[..|steps| - 1]), last.step, last.now)
  }

  ghost predicate Agrees(s: Pair, p: Prop) {
    p in s.copy && s.copy[p] == FieldOf(s.room, p, 0.0)
  }

  ghost predicate AgreesUnlessDirty(s: Pair, p: Prop) {
    p in s.copy && (p in s.room.dirty || s.copy[p] == FieldOf(s.room, p, 0.0))
  }

  /** The client can read what it is sent, and for the grants, what it makes of them is right. */
  ghost predicate Copyable(r: Room, p: Prop) {
    OnlyRoles(r.grants) && (p == GrantMasks ==> Good(LIMITS, r.grants))
  }

  /** A shuffle has to move nothing, or the queue has to be due to be sent anyway. */
  ghost predicate ShuffleGuard(r: Room, step: Step) {
    step.Do? && step.op.Shuffle? ==> step.op.shuffled == r.queue || Queue in r.dirty
  }

  lemma TimeDoesNotMatter(r: Room, p: Prop, now: real)
    requires p != PlaybackPosition
    ensures FieldOf(r, p, now) == FieldOf(r, p, 0.0)
  {
  }

  lemma GrantsField(r: Room, now: real)
    ensures FieldOf(r, GrantMasks, now) == RoleMasks(r.grants)
  {
  }

  /** The room's own grants decide whether the client can read what it is sent. */
  lemma SentIsReadable(r: Room, now: real)
    ensures Readable(FullState(r, now)) <==> OnlyRoles(r.grants)
    ensures OnlyRoles(r.grants) ==> Readable(Message(r, now))
  {
    GrantsField(r, now);
  }

  /** What the client has after it has read everything there is. */
  lemma JoinedCopy(s: Pair, now: real, p: Prop)
    requires Handled(p) && OnlyRoles(s.room.grants)
    ensures p in Next(s, Join, now).copy && Next(s, Join, now).copy[p] == Received(p, FieldOf(s.room, p, now))
    ensures Next(s, Join, now).room == s.room
  {
    SentIsReadable(s.room, now);
    assert FullState(s.room, now)[p] == FieldOf(s.room, p, now);
  }

  /** What the client makes of a property it is sent. */
  lemma ReceivedField(r: Room, p: Prop, now: real)
    requires Tracked(p) && Copyable(r, p)
    ensures Received(p, FieldOf(r, p, now)) == FieldOf(r, p, 0.0)
  {
    TimeDoesNotMatter(r, p, now);
    if p == GrantMasks {
      ProgramLimitsOk();
      CopiedExactly(LIMITS, r.grants);
    }
  }

  lemma DoKeepsAgreement(s: Pair, op: Op, now: real, p: Prop)
    requires Tracked(p) && AgreesUnlessDirty(s, p)
    requires p == Queue ==> ShuffleGuard(s.room, Do(op))
    ensures AgreesUnlessDirty(Next(s, Do(op), now), p)
  {
    if op.Shuffle? {
      if p != Queue {
        ShuffleChangesQueueOnly(s.room, op.shuffled, p, 0.0);
      }
    } else {
      OpMarks(s.room, op, now);
    }
  }

  lemma DequeuedKeepsGrants(r: Room, now: real)
    ensures Dequeued(r, now).grants == r.grants
  {
    assert Requeued(VotesCleared(r)).grants == r.grants;
  }

  lemma UpdatedKeepsGrants(r: Room, now: real)
    ensures Updated(r, now).grants == r.grants
  {
    DequeuedKeepsGrants(r, now);
  }

  lemma SkippedKeepsGrants(r: Room, who: Option<ClientId>, voters: nat, now: real)
    ensures Skipped(r, who, voters, now).grants == r.grants
  {
    DequeuedKeepsGrants(if r.enableVoteSkip then SkipVoteToggled(r, who) else r, now);
  }

  lemma UndoneKeepsGrants(r: Room, event: UndoEvent, allowed: bool, now: real)
    ensures Undone(r, event, allowed, now).room.grants == r.grants
  {
  }

  lemma PlayedNowKeepsGrants(r: Room, video: VideoId, subtitle: Option<string>, fetched: QueueItem, allowed: bool,
                             now: real)
    ensures PlayedNow(r, video, subtitle, fetched, allowed, now).room.grants == r.grants
  {
  }

  lemma QueueRequestsKeepGrants(r: Room, op: Op, now: real)
    requires op.Add? || op.AddMany? || op.Remove? || op.Reorder? || op.UpdateItem? || op.Restore?
    ensures Performed(r, op, now).grants == r.grants
  {
  }

  lemma OthersKeepGrants(r: Room, op: Op, now: real)
    requires !op.Add? && !op.AddMany? && !op.Remove? && !op.Reorder? && !op.UpdateItem? && !op.Restore?
    requires !op.SetGrants? && !op.Undo? && !op.PlayNow? && !op.Update? && !op.Skip?
    ensures Performed(r, op, now).grants == r.grants
  {
  }

  lemma OpKeepsGrants(r: Room, op: Op, now: real)
    requires !op.SetGrants?
    ensures Performed(r, op, now).grants == r.grants
  {
    match op
    case Undo(event, allowed) => UndoneKeepsGrants(r, event, allowed, now);
    case PlayNow(video, subtitle, fetched, allowed) => PlayedNowKeepsGrants(r, video, subtitle, fetched, allowed, now);
    case Update => UpdatedKeepsGrants(r, now);
    case Skip(who, voters) => SkippedKeepsGrants(r, who, voters, now);
    case _ =>
      if op.Add? || op.AddMany? || op.Remove? || op.Reorder? || op.UpdateItem? || op.Restore? {
        QueueRequestsKeepGrants(r, op, now);
      } else {
        OthersKeepGrants(r, op, now);
      }
  }

  lemma WithGrantsKeepsCopyable(r: Room, writes: seq<Write>, p: Prop)
    requires Copyable(r, p)
    ensures Copyable(WithGrants(r, writes), p)
  {
    ProgramLimitsOk();
    RegrantedKeepsGood(LIMITS, r.grants, writes);
  }

  lemma SameGrantsCopyable(r: Room, s: Room, p: Prop)
    requires Copyable(r, p) && s.grants == r.grants
    ensures Copyable(s, p)
  {
  }

  /** Nothing that changes a room makes its grants such that they cannot be copied. */
  lemma OpKeepsCopyable(r: Room, op: Op, now: real, p: Prop)
    requires Copyable(r, p)
    ensures Copyable(Performed(r, op, now), p)
  {
    if op.SetGrants? {
      WithGrantsKeepsCopyable(r, op.writes, p);
    } else {
      OpKeepsGrants(r, op, now);
      SameGrantsCopyable(r, Performed(r, op, now), p);
    }
  }

  lemma NextKeepsCopyable(s: Pair, step: Step, now: real, p: Prop)
    requires Copyable(s.room, p)
    ensures Copyable(Next(s, step, now).room, p)
  {
    if step.Do? {
      OpKeepsCopyable(s.room, step.op, now, p);
    }
  }

  /** A sync sends a dirty property as it is, and leaves the copy of every other alone. */
  lemma SyncedCopy(s: Pair, p: Prop, now: real)
    requires Tracked(p) && Copyable(s.room, p) && (p in s.copy || p in s.room.dirty)
    ensures p in Next(s, Sync, now).copy
    ensures Next(s, Sync, now).copy[p] == if p in s.room.dirty then FieldOf(s.room, p, 0.0) else s.copy[p]
    ensures FieldOf(Next(s, Sync, now).room, p, 0.0) == FieldOf(s.room, p, 0.0)
  {
    ReceivedField(s.room, p, now);
    CleanedFields(s.room, p);
    SentIsReadable(s.room, now);
  }

  lemma NextKeepsAgreement(s: Pair, step: Step, now: real, p: Prop)
    requires Tracked(p) && Copyable(s.room, p) && AgreesUnlessDirty(s, p)
    requires p == Queue ==> ShuffleGuard(s.room, step)
    ensures AgreesUnlessDirty(Next(s, step, now), p)
    ensures step.Sync? ==> Agrees(Next(s, step, now), p)
  {
    match step
    case Do(op) => DoKeepsAgreement(s, op, now, p);
    case Sync => SyncedCopy(s, p, now);
    case Join => JoinAgrees(s, now, p);
  }

  lemma CleanedFields(r: Room, p: Prop)
    ensures FieldOf(Cleaned(r), p, 0.0) == FieldOf(r, p, 0.0)
  {
  }

  ghost predicate AlwaysShuffleGuarded(s: Pair, steps: seq<Timed>) {
    forall k :: 0 <= k < |steps| ==> ShuffleGuard(After(s, steps[..k]).room, steps[k].step)
  }

  /** The copy is right at every point of the run, unless the property is due to be sent. */
  ghost predicate AlwaysAgrees(s: Pair, steps: seq<Timed>, p: Prop) {
    forall k :: 0 <= k <= |steps| ==> AgreesUnlessDirty(After(s, steps[..k]), p)
  }

  lemma OneMoreStep(s: Pair, steps: seq<Timed>, k: nat)
    requires k < |steps|
    ensures After(s, steps[..k + 1]) == Next(After(s, steps[..k]), steps[k].step, steps[k].now)
  {
    assert steps[..k + 1][..k] == steps[..k];
  }

  lemma {:induction false} RunKeepsCopyable(s: Pair, steps: seq<Timed>, p: Prop, k: nat)
    requires Copyable(s.room, p) && k <= |steps|
    ensures Copyable(After(s, steps[..k]).room, p)
  {
    if k > 0 {
      RunKeepsCopyable(s, steps, p, k - 1);
      OneMoreStep(s, steps, k - 1);
      NextKeepsCopyable(After(s, steps[..k - 1]), steps[k - 1].step, steps[k - 1].now, p);
    }
  }

  lemma {:induction false} AgreesUpTo(s: Pair, steps: seq<Timed>, p: Prop, k: nat)
    requires Tracked(p) && Copyable(s.room, p) && AgreesUnlessDirty(s, p) && k <= |steps|
    requires p == Queue ==> AlwaysShuffleGuarded(s, steps)
    ensures AgreesUnlessDirty(After(s, steps[..k]), p)
    ensures k > 0 && steps[k - 1].step.Sync? ==> Agrees(After(s, steps[..k]), p)
  {
    if k > 0 {
      AgreesUpTo(s, steps, p, k - 1);
      RunKeepsCopyable(s, steps, p, k - 1);
      OneMoreStep(s, steps, k - 1);
      NextKeepsAgreement(After(s, steps[..k - 1]), steps[k - 1].step, steps[k - 1].now, p);
    }
  }

  /** Delta sync keeps copies right: at every point of every run, every tracked property of the copy
      is the room's unless it is dirty, and after every sync it is the room's; for the queue, as
      long as every shuffle is guarded. */
  lemma RunKeepsAgreement(s: Pair, steps: seq<Timed>, p: Prop)
    requires Tracked(p) && Copyable(s.room, p) && AgreesUnlessDirty(s, p)
    requires p == Queue ==> AlwaysShuffleGuarded(s, steps)
    ensures AlwaysAgrees(s, steps, p)
    ensures forall k :: 0 <= k < |steps| && steps[k].step.Sync? ==> Agrees(After(s, steps[..k + 1]), p)
  {
    forall k | 0 <= k <= |steps|
      ensures AgreesUnlessDirty(After(s, steps[..k]), p)
    {
      AgreesUpTo(s, steps, p, k);
    }
    forall k | 0 <= k < |steps| && steps[k].step.Sync?
      ensures Agrees(After(s, steps[..k + 1]), p)
    {
      AgreesUpTo(s, steps, p, k + 1);
    }
  }

  /** In every run the copy of the queue is right at every point, unless the queue is due to be sent,
      exactly if every shuffle of the run is guarded. */
  lemma RunKeepsQueueExactly(s: Pair, steps: seq<Timed>)
    requires Copyable(s.room, Queue) && AgreesUnlessDirty(s, Queue)
    ensures AlwaysAgrees(s, steps, Queue) <==> AlwaysShuffleGuarded(s, steps)
  {
    if AlwaysShuffleGuarded(s, steps) {
      RunKeepsAgreement(s, steps, Queue);
    }
    if AlwaysAgrees(s, steps, Queue) {
      forall k | 0 <= k < |steps|
        ensures ShuffleGuard(After(s, steps[..k]).room, steps[k].step)
      {
        OneMoreStep(s, steps, k);
        assert AgreesUnlessDirty(After(s, steps[..k]), Queue) && AgreesUnlessDirty(After(s, steps[..k + 1]), Queue);
        UnguardedShuffle(After(s, steps[..k]), steps[k].step, steps[k].now);
      }
    }
  }

  lemma UnguardedShuffle(s: Pair, step: Step, now: real)
    requires AgreesUnlessDirty(s, Queue)
    ensures AgreesUnlessDirty(Next(s, step, now), Queue) ==> ShuffleGuard(s.room, step)
  {
    if step.Do? && step.op.Shuffle? {
      assert FieldOf(Next(s, step, now).room, Queue, 0.0) == ItemList(step.op.shuffled);
      assert FieldOf(s.room, Queue, 0.0) == ItemList(s.room.queue);
    }
  }

  /** A client that joins starts with an equal copy, whatever it had before. */
  lemma JoinAgrees(s: Pair, now: real, p: Prop)
    requires Tracked(p) && Copyable(s.room, p)
    ensures Agrees(Next(s, Join, now), p)
  {
    ReceivedField(s.room, p, now);
    JoinedCopy(s, now, p);
  }

  lemma JoinedGrants(s: Pair, now: real)
    requires OnlyRoles(s.room.grants)
    ensures Agrees(Next(s, Join, now), GrantMasks) <==> Constructed(LIMITS, s.room.grants) == s.room.grants
  {
    JoinedCopy(s, now, GrantMasks);
    GrantsField(s.room, now);
    GrantsField(s.room, 0.0);
  }

  /** A client that joins has the grants of the room exactly if those are good: it makes an object
      from what it is sent, which gives administrator and owner everything. */
  lemma GrantsAgreeExactly(s: Pair, now: real)
    requires OnlyRoles(s.room.grants)
    ensures Agrees(Next(s, Join, now), GrantMasks) <==> Good(LIMITS, s.room.grants)
  {
    ProgramLimitsOk();
    CopiedExactly(LIMITS, s.room.grants);
    JoinedGrants(s, now);
  }

  /** After a shuffle and a sync, a copy of the queue that was right is right if and only if the
      shuffle moved nothing, or the queue was due to be sent anyway. */
  lemma ShuffleIsNotSynced(s: Pair, shuffled: seq<QueueItem>, now: real, later: real)
    requires Copyable(s.room, Queue) && AgreesUnlessDirty(s, Queue)
    ensures var after := Next(Next(s, Do(Shuffle(shuffled)), now), Sync, later);
            Agrees(after, Queue) <==> shuffled == s.room.queue || Queue in s.room.dirty
  {
    var shuffledPair := Next(s, Do(Shuffle(shuffled)), now);
    NextKeepsCopyable(s, Do(Shuffle(shuffled)), now, Queue);
    SyncedCopy(shuffledPair, Queue, later);
    assert FieldOf(shuffledPair.room, Queue, 0.0) == ItemList(shuffled);
  }

  /** A sync of a dirty property makes the copy of it right again, whatever it was. */
  lemma DirtySyncHeals(s: Pair, p: Prop, now: real)
    requires Tracked(p) && Copyable(s.room, p) && p in s.room.dirty
    ensures Agrees(Next(s, Sync, now), p)
  {
    SyncedCopy(s, p, now);
  }
}
