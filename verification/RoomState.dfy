/** A room's state and what each request does to it, as functions from room to room. The class in
    `Rooms` implements them step by step. Every change is recorded in the set of dirty
    properties. Time, permissions and fetched video information are arguments. */
module RoomState {
  import opened Options
  import opened VideoQueues
  import opened PlaybackClock
  import opened Grants

  type ClientId = nat

  datatype QueueMode = Manual | Vote | Loop | Dj

  /** When a room takes over the queue it had when it was unloaded. */
  const ALWAYS := 2
  const NEVER := 0

  datatype Segment = Segment(startTime: real, endTime: real, category: string)

  /** The properties that are sent to clients. */
  datatype Prop =
    | Name | Title | Description | IsTemporary | Visibility | Mode
    | CurrentSource | Queue | IsPlaying | PlaybackPosition | PlaybackSpeed
    | GrantMasks | HasOwner | VoteCounts | VideoSegments | AutoSkipCategories
    | PrevQueue | RestoreQueueBehavior | EnableVoteSkip | VotesToSkip

  datatype Profile = Profile(
    name: string,
    title: string,
    description: string,
    temporary: bool,
    visibility: string,
    owner: Option<nat>,
    autoSkip: seq<string>,
    restoreBehavior: nat)

  datatype Room = Room(
    profile: Profile,
    mode: QueueMode,
    enableVoteSkip: bool,
    grants: Masks,
    current: Option<QueueItem>,
    queue: seq<QueueItem>,
    prevQueue: Option<seq<QueueItem>>,
    clock: Clock,
    segments: seq<Segment>,
    votes: map<string, set<ClientId>>,
    votesToSkip: set<ClientId>,
    dirty: set<Prop>)

  datatype Reply = Accepted | AlreadyQueued | NotQueued | Denied | BadSubtitle | BadIndex | NothingToRestore

  datatype Result = Result(room: Room, reply: Reply)

  // ---------------------------------------------------------------- small changes

  function Marked(r: Room, props: set<Prop>): Room {
    r.(dirty := r.dirty + props)
  }

  function WithQueue(r: Room, queue: seq<QueueItem>): Room {
    r.(queue := queue, dirty := r.dirty + {Queue})
  }

  /** Adding nothing marks nothing. */
  function Enqueued(r: Room, videos: seq<QueueItem>): Room {
    if videos == [] then r else WithQueue(r, r.queue + videos)
  }

  function WithCurrent(r: Room, current: Option<QueueItem>): Room {
    r.(current := current, dirty := r.dirty + {CurrentSource})
  }

  function WithSegments(r: Room, segments: seq<Segment>): Room {
    r.(segments := segments, dirty := r.dirty + {VideoSegments})
  }

  /** Clearing what is clear already marks nothing. */
  function WithPrevQueue(r: Room, prevQueue: Option<seq<QueueItem>>): Room {
    if prevQueue.None? && r.prevQueue.None? then r
    else r.(prevQueue := prevQueue, dirty := r.dirty + {PrevQueue})
  }

  /** What a clock event marks. */
  function ClockProps(c: Clock, e: Event): set<Prop> {
    match e
    case Play => if c.playing then {} else {IsPlaying}
    case Pause => if c.playing then {IsPlaying, PlaybackPosition} else {}
    case Seek(_) => {PlaybackPosition}
    case SetSpeed(_) => {PlaybackPosition, PlaybackSpeed}
    case Load(_) => {PlaybackPosition, PlaybackSpeed}
    case Restart => {PlaybackPosition}
    case Stop => {PlaybackPosition, PlaybackSpeed} + if c.playing then {IsPlaying} else {}
    case Rewind(_) => {PlaybackPosition}
  }

  function Clocked(r: Room, e: Event, now: real): Room {
    r.(clock := Apply(r.clock, e, now), dirty := r.dirty + ClockProps(r.clock, e))
  }

  function Trimmed(item: QueueItem): QueueItem {
    item.(startAt := None, endAt := None)
  }

  // ---------------------------------------------------------------- the next video

  function VotesCleared(r: Room): Room {
    if r.enableVoteSkip then r.(votesToSkip := {}, dirty := r.dirty + {VotesToSkip}) else r
  }

  function Requeued(r: Room): Room {
    if r.current.Some? && r.mode.Loop? then Enqueued(r, [Trimmed(r.current.value)]) else r
  }

  function SegmentsCleared(r: Room): Room {
    if r.segments != [] then WithSegments(r, []) else r
  }

  function Loaded(r: Room, now: real): Room
    requires r.queue != []
  {
    var next := r.queue[0];
    var startAt := if next.startAt.Some? then next.startAt.value else 0.0;
    SegmentsCleared(Clocked(WithCurrent(WithQueue(r, r.queue[1..]), Some(next)), Load(startAt), now))
  }

  function Stopped(r: Room, now: real): Room {
    SegmentsCleared(WithCurrent(Clocked(r, Stop, now), None))
  }

  /** With nothing to play and nothing playing, only the speed is set back. */
  function Idle(r: Room): Room {
    SegmentsCleared(r.(clock := r.clock.(speed := 1.0), dirty := r.dirty + {PlaybackSpeed}))
  }

  function Dequeued(room: Room, now: real): Room {
    var r := VotesCleared(room);
    if r.current.Some? && r.mode.Dj? then
      Clocked(WithCurrent(r, Some(Trimmed(r.current.value))), Restart, now)
    else
      var q := Requeued(r);
      if q.queue != [] then Loaded(q, now)
      else if q.current.Some? then Stopped(q, now)
      else Idle(q)
  }

  // ---------------------------------------------------------------- the periodic update

  /** What votes are counted under: service and id written together, so that two videos with the
      same text share their votes. */
  function VoteKey(video: VideoId): string {
    video.service + video.id
  }

  function VotesFor(votes: map<string, set<ClientId>>): Key {
    (item: QueueItem) => if VoteKey(item.video) in votes then |votes[VoteKey(item.video)]| else 0
  }

  function EndOf(item: QueueItem): real {
    if item.endAt.Some? then item.endAt.value
    else if item.length.Some? then item.length.value
    else 0.0
  }

  predicate IsOver(r: Room, now: real) {
    r.current.Some? && r.clock.playing && Shown(r.clock, now) > EndOf(r.current.value)
  }

  predicate WantsNext(r: Room, now: real) {
    (r.current.None? && r.queue != []) || IsOver(r, now)
  }

  function SortedByVotes(r: Room): Room {
    var sorted := Ordered(r.queue, VotesFor(r.votes));
    if !r.mode.Vote? || sorted == r.queue then r else WithQueue(r, sorted)
  }

  function Updated(r: Room, now: real): Room {
    SortedByVotes(if WantsNext(r, now) then Dequeued(r, now) else r)
  }

  // ---------------------------------------------------------------- requests on the queue

  predicate InQueue(r: Room, video: VideoId) {
    (r.current.Some? && r.current.value.video == video) || IndexOf(r.queue, video).Some?
  }

  /** The part of a string behind its last dot, or all of it. */
  function LastPart(s: string): string {
    if s == "" || s[|s| - 1] == '.' then "" else LastPart(s[..|s| - 1]) + [s[|s| - 1]]
  }

  predicate SubtitleAccepted(url: Option<string>) {
    url.None? || url.value == "" || LastPart(url.value) == "vtt"
  }

  function WithSubtitle(item: QueueItem, url: Option<string>): QueueItem {
    if url.None? || url.value == "" then item else item.(subtitleUrl := url)
  }

  /** Adds one video. `fetched` is what was found for the video asked for; its id can differ. */
  function Added(r: Room, asked: VideoId, subtitle: Option<string>, fetched: QueueItem): Result {
    if InQueue(r, asked) then Result(r, AlreadyQueued)
    else if !SubtitleAccepted(subtitle) then Result(r, BadSubtitle)
    else Result(WithPrevQueue(Enqueued(r, [WithSubtitle(fetched, subtitle)]), None), Accepted)
  }

  function NotYetQueued(r: Room, videos: seq<QueueItem>): seq<QueueItem> {
    if videos == [] then []
    else
      var last := videos[|videos| - 1];
      NotYetQueued(r, videos[..|videos| - 1]) + if InQueue(r, last.video) then [] else [last]
  }

  function AddedMany(r: Room, fetched: seq<QueueItem>): Result {
    var videos := NotYetQueued(r, fetched);
    if videos == [] then Result(r, AlreadyQueued) else Result(Enqueued(r, videos), Accepted)
  }

  function Removed(r: Room, video: VideoId): Result {
    var i := IndexOf(r.queue, video);
    if i.None? then Result(r, NotQueued)
    else Result(WithQueue(r, RemovedAt(r.queue, i.value)), Accepted)
  }

  function Reordered(r: Room, from: int, to: int): Result {
    if from == to then Result(r, Accepted)
    else if 0 <= from < |r.queue| && 0 <= to < |r.queue| then
      Result(WithQueue(r, Moved(r.queue, from, to)), Accepted)
    else Result(r, BadIndex)
  }

  predicate EndsInVtt(s: string) {
    |s| >= 4 && s[|s| - 4..] == ".vtt"
  }

  function ItemUpdated(r: Room, video: VideoId, patch: Patch): Result {
    var i := IndexOf(r.queue, video);
    if patch.subtitleUrl.Some? && !EndsInVtt(patch.subtitleUrl.value) then Result(r, BadSubtitle)
    else if i.None? then Result(r, NotQueued)
    else Result(WithQueue(r, r.queue[i.value := Patched(r.queue[i.value], patch)]), Accepted)
  }

  /** Puts the current video, to be resumed where it is, on top of the queue. */
  function CurrentPushed(r: Room, now: real): Room {
    if r.current.None? then r
    else
      WithQueue(r, [r.current.value.(startAt := Some(Shown(r.clock, now)))] + r.queue)
  }

  function PlayedNow(r: Room, video: VideoId, subtitle: Option<string>, fetched: QueueItem,
                     allowed: bool, now: real): Result {
    if r.current.Some? && r.current.value.video == video then Result(r, Accepted)
    else if !allowed then Result(r, Denied)
    else
      var i := IndexOf(r.queue, video);
      var item := if i.Some? then r.queue[i.value] else fetched;
      var taken := if i.Some? then WithQueue(r, RemovedAt(r.queue, i.value)) else r;
      if !SubtitleAccepted(subtitle) then Result(taken, BadSubtitle)
      else
        var pushed := CurrentPushed(taken, now);
        var playing := Clocked(WithCurrent(pushed, Some(WithSubtitle(item, subtitle))), Restart, now);
        Result(Marked(WithSegments(playing, []), {Queue}), Accepted)
  }

  function Restored(r: Room, discard: bool): Result {
    if r.prevQueue.None? then Result(r, NothingToRestore)
    else if discard then Result(WithPrevQueue(r, None), Accepted)
    else Result(WithPrevQueue(Enqueued(r, r.prevQueue.value), None), Accepted)
  }

  // ---------------------------------------------------------------- skipping, voting, leaving

  function Threshold(users: nat): nat {
    (users + 1) / 2
  }

  function SkipVoteToggled(r: Room, who: Option<ClientId>): Room {
    if who.None? then r
    else
      r.(votesToSkip := if who.value in r.votesToSkip then r.votesToSkip - {who.value}
                        else r.votesToSkip + {who.value},
         dirty := r.dirty + {VotesToSkip})
  }

  /** What a client is told about a request, and sends back to have it undone. */
  datatype UndoEvent =
    | SeekEvent(prevPosition: Option<real>)
    | SkipEvent(video: Option<QueueItem>, prevPosition: Option<real>)
    | AddEvent(asked: Option<VideoId>)
    | RemoveEvent(video: Option<QueueItem>, queueIdx: Option<int>)
    | OtherEvent

  predicate SkipPasses(r: Room, who: Option<ClientId>, voters: nat) {
    r.current.Some? &&
    (r.enableVoteSkip ==> |SkipVoteToggled(r, who).votesToSkip| >= Threshold(voters))
  }

  function Skipped(room: Room, who: Option<ClientId>, voters: nat, now: real): Room {
    if room.current.None? then room
    else
      var r := if room.enableVoteSkip then SkipVoteToggled(room, who) else room;
      if SkipPasses(room, who, voters) then WithSegments(Dequeued(r, now), []) else r
  }

  function Voted(r: Room, who: ClientId, video: VideoId, add: bool): Room {
    var key := VoteKey(video);
    var votes :=
      if key in r.votes then r.votes[key := if add then r.votes[key] + {who} else r.votes[key] - {who}]
      else if add then r.votes[key := {who}]
      else r.votes;
    r.(votes := votes, dirty := r.dirty + {VoteCounts})
  }

  function WithoutVoter(votes: map<string, set<ClientId>>, who: ClientId): map<string, set<ClientId>> {
    map key | key in votes :: votes[key] - {who}
  }

  function Left(room: Room, who: ClientId): Room {
    var r := if room.enableVoteSkip
             then room.(votesToSkip := room.votesToSkip - {who}, dirty := room.dirty + {VotesToSkip})
             else room;
    if !r.mode.Vote? || forall key :: key in r.votes ==> who !in r.votes[key] then r
    else r.(votes := WithoutVoter(r.votes, who), dirty := r.dirty + {VoteCounts})
  }

  // ---------------------------------------------------------------- undo

  predicate Truthy(x: Option<real>) {
    x.Some? && x.value != 0.0
  }

  function SkipUndone(r: Room, video: Option<QueueItem>, prev: Option<real>, now: real): Room {
    var pushed := if r.current.Some? then WithQueue(r, [r.current.value] + r.queue) else r;
    if video.Some? && Truthy(prev) then Clocked(WithCurrent(pushed, video), Rewind(prev.value), now) else pushed
  }

  /** `allowed` is the permission check of the request that the undo turns into. */
  function Undone(r: Room, event: UndoEvent, allowed: bool, now: real): Result {
    match event
    case SeekEvent(prev) =>
      if !Truthy(prev) then Result(r, Accepted)
      else if !allowed then Result(r, Denied)
      else Result(Clocked(r, Seek(prev.value), now), Accepted)
    case SkipEvent(video, prev) => Result(SkipUndone(r, video, prev, now), Accepted)
    case AddEvent(asked) =>
      if r.queue != [] && asked.Some? then if allowed then Removed(r, asked.value) else Result(r, Denied)
      else Result(WithCurrent(r, None), Accepted)
    case RemoveEvent(video, idx) =>
      if video.None? || idx.None? then Result(r, Accepted)
      else if 0 <= idx.value <= |r.queue| then
        Result(WithQueue(r, Inserted(r.queue, video.value, idx.value)), Accepted)
      else Result(r, BadIndex)
    case OtherEvent => Result(r, Accepted)
  }
}
