/** When undoing a request gives back what the request changed, and when it does not. */
module UndoRequests {
  import opened Options
  import opened VideoQueues
  import opened PlaybackClock
  import opened RoomState
  import opened QueueModes
  import opened QueueUniqueness

  ghost predicate SameVideos(a: Room, b: Room) {
    a.current == b.current && a.queue == b.queue
  }

  // ---------------------------------------------------------------- removing

  /** What is announced about a removal. */
  function RemovalOf(r: Room, video: VideoId): UndoEvent
    requires IndexOf(r.queue, video).Some?
  {
    var i := IndexOf(r.queue, video).value;
    RemoveEvent(Some(r.queue[i]), Some(i))
  }

  /** Undoing a removal puts the video back exactly where it was, also when any number of videos
      were added behind the others in between. */
  lemma UndoRemoval(r: Room, video: VideoId, added: seq<QueueItem>, allowed: bool, now: real)
    requires IndexOf(r.queue, video).Some?
    ensures var later := Enqueued(Removed(r, video).room, added);
            var u := Undone(later, RemovalOf(r, video), allowed, now);
            && u.reply == Accepted
            && u.room.current == r.current && u.room.queue == r.queue + added
            && Queue in u.room.dirty
  {
    var i := IndexOf(r.queue, video).value;
    var removed := RemovedAt(r.queue, i);
    assert Inserted(removed + added, r.queue[i], i) == Inserted(removed, r.queue[i], i) + added;
    InsertUndoesRemove(r.queue, i);
  }

  // ---------------------------------------------------------------- adding

  lemma FirstOfAdded(q: seq<QueueItem>, item: QueueItem, more: seq<QueueItem>)
    requires IndexOf(q, item.video).None?
    ensures IndexOf(q + [item] + more, item.video) == Some(|q|)
    ensures RemovedAt(q + [item] + more, |q|) == q + more
  {
    var all := q + [item] + more;
    assert forall j :: 0 <= j < |q| ==> all[j] == q[j];
    assert all[|q|] == item;
  }

  /** An alias of the video asked for stays: removing what was asked for leaves one video too many
      of one kind and one too few of another. */
  lemma AliasStays(q: seq<QueueItem>, item: QueueItem, more: seq<QueueItem>, asked: VideoId, i: nat)
    requires item.video != asked && i < |q + [item] + more| && (q + [item] + more)[i].video == asked
    ensures RemovedAt(q + [item] + more, i) != q + more
  {
    TimesRemoved(q + [item] + more, i, asked);
    TimesAdds(q + [item], more, asked);
    TimesAdds(q, [item], asked);
    TimesAdds(q, more, asked);
    TimesOne(item, asked);
  }

  /** Undoing an addition, while the video is still queued and whatever was added behind it since,
      gives the queue as it would be without that addition, if and only if what was found carries
      the id that was asked for. */
  lemma UndoAddition(r: Room, asked: VideoId, subtitle: Option<string>, fetched: QueueItem,
                     more: seq<QueueItem>, now: real)
    requires Added(r, asked, subtitle, fetched).reply == Accepted
    ensures var later := Enqueued(Added(r, asked, subtitle, fetched).room, more);
            var u := Undone(later, AddEvent(Some(asked)), true, now);
            && u.room.current == r.current
            && (u.room.queue == r.queue + more <==> fetched.video == asked)
            && (fetched.video == asked ==> u.reply == Accepted)
            && (u.reply != Accepted ==> u == Result(later, NotQueued))
  {
    var item := WithSubtitle(fetched, subtitle);
    var all := r.queue + [item] + more;
    AddedThenMore(r, asked, subtitle, fetched, more);
    if fetched.video == asked {
      FirstOfAdded(r.queue, item, more);
    } else if IndexOf(all, asked).Some? {
      AliasStays(r.queue, item, more, asked, IndexOf(all, asked).value);
    } else {
      assert |all| == |r.queue + more| + 1;
    }
  }

  lemma AddedThenMore(r: Room, asked: VideoId, subtitle: Option<string>, fetched: QueueItem, more: seq<QueueItem>)
    requires Added(r, asked, subtitle, fetched).reply == Accepted
    ensures IndexOf(r.queue, asked).None? && |r.queue + [fetched] + more| > 0
    ensures var later := Enqueued(Added(r, asked, subtitle, fetched).room, more);
            later.current == r.current && later.queue == r.queue + [WithSubtitle(fetched, subtitle)] + more
  {
  }

  /** Adding to an empty room, whose next update starts the video at once, is undone as well:
      the video that plays is taken away. */
  lemma UndoAdditionThatPlays(r: Room, asked: VideoId, subtitle: Option<string>, fetched: QueueItem,
                              allowed: bool, now: real, later: real)
    requires r.current.None? && r.queue == []
    requires Added(r, asked, subtitle, fetched).reply == Accepted
    ensures var playing := Updated(Added(r, asked, subtitle, fetched).room, now);
            && playing.current == Some(WithSubtitle(fetched, subtitle)) && playing.queue == []
            && SameVideos(Undone(playing, AddEvent(Some(asked)), allowed, later).room, r)
  {
    var added := Added(r, asked, subtitle, fetched).room;
    assert added.queue == [WithSubtitle(fetched, subtitle)];
    PlainAdvance(added, now);
    var next := Dequeued(added, now);
    assert Items(next) == added.queue && next.current == Some(Items(next)[0]);
    assert next.queue == [];
    assert Ordered(next.queue, VotesFor(next.votes)) == [];
  }

  /** Undoing the addition of a whole list takes away the current video instead, and leaves
      everything that was added in the queue. */
  lemma UndoListAddition(r: Room, fetched: seq<QueueItem>, allowed: bool, now: real)
    requires AddedMany(r, fetched).reply == Accepted
    ensures var u := Undone(AddedMany(r, fetched).room, AddEvent(None), allowed, now).room;
            && u.current.None?
            && u.queue == r.queue + NotYetQueued(r, fetched) != r.queue
  {
    assert |NotYetQueued(r, fetched)| > 0;
  }

  // ---------------------------------------------------------------- adding in vote mode

  /** Wherever ordering by votes moves a video that was last, all others are ordered as they
      would be without it. */
  lemma {:induction false} OrderedWithLast(q: seq<QueueItem>, x: QueueItem, key: Key)
    returns (front: seq<QueueItem>, back: seq<QueueItem>)
    ensures Ordered(q + [x], key) == front + [x] + back
    ensures Ordered(q, key) == front + back
  {
    if q == [] {
      front, back := [], [];
      assert (q + [x])[1..] == [];
    } else {
      var f, b := OrderedWithLast(q[1..], x, key);
      assert (q + [x])[1..] == q[1..] + [x];
      OrderedIsStable(q[1..] + [x], key);
      front, back := PlaceBeside(q[0], f, x, b, key);
    }
  }

  lemma DescendingTail(first: QueueItem, rest: seq<QueueItem>, key: Key)
    requires Descending([first] + rest, key)
    ensures Descending(rest, key)
    ensures rest != [] ==> key(first) >= key(rest[0])
  {
    var all := [first] + rest;
    assert forall i :: 0 <= i < |rest| ==> rest[i] == all[i + 1];
    assert all[0] == first;
  }

  lemma PlaceBehindFirst(a: QueueItem, first: QueueItem, rest: seq<QueueItem>, key: Key)
    requires key(first) > key(a)
    ensures Place(a, [first] + rest, key) == [first] + Place(a, rest, key)
  {
    assert ([first] + rest)[1..] == rest;
  }

  lemma PlaceInFront(a: QueueItem, q: seq<QueueItem>, key: Key)
    requires q == [] || key(q[0]) <= key(a)
    ensures Place(a, q, key) == [a] + q
  {
  }

  lemma {:induction false} PlaceBeside(a: QueueItem, f: seq<QueueItem>, x: QueueItem, b: seq<QueueItem>, key: Key)
    returns (front: seq<QueueItem>, back: seq<QueueItem>)
    requires Descending(f + [x] + b, key)
    ensures Place(a, f + [x] + b, key) == front + [x] + back
    ensures Place(a, f + b, key) == front + back
  {
    if f == [] {
      assert f + [x] + b == [x] + b && f + b == b;
      front, back := PlaceBesideFirst(a, x, b, key);
    } else if key(f[0]) > key(a) {
      var g := f[1..];
      assert f + [x] + b == [f[0]] + (g + [x] + b) && f + b == [f[0]] + (g + b);
      DescendingTail(f[0], g + [x] + b, key);
      PlaceBehindFirst(a, f[0], g + [x] + b, key);
      PlaceBehindFirst(a, f[0], g + b, key);
      front, back := PlaceBeside(a, g, x, b, key);
      front := [f[0]] + front;
    } else {
      front, back := [a] + f, b;
      PlaceInFront(a, f + [x] + b, key);
      PlaceInFront(a, f + b, key);
      assert [a] + (f + [x] + b) == front + [x] + back && [a] + (f + b) == front + back;
    }
  }

  lemma PlaceBesideFirst(a: QueueItem, x: QueueItem, b: seq<QueueItem>, key: Key)
    returns (front: seq<QueueItem>, back: seq<QueueItem>)
    requires Descending([x] + b, key)
    ensures Place(a, [x] + b, key) == front + [x] + back
    ensures Place(a, b, key) == front + back
  {
    DescendingTail(x, b, key);
    if key(x) <= key(a) {
      front, back := [a], b;
      PlaceInFront(a, [x] + b, key);
      PlaceInFront(a, b, key);
      assert [a] + ([x] + b) == front + [x] + back;
    } else {
      front, back := [], Place(a, b, key);
      PlaceBehindFirst(a, x, b, key);
      assert front + [x] + back == [x] + back && front + back == back;
    }
  }

  lemma UpdatesOrder(r: Room, times: seq<real>)
    requires r.current.Some? && NeverOver(r, times)
    ensures UpdatedAll(r, times).current == r.current
    ensures UpdatedAll(r, times).queue ==
            if r.mode.Vote? && times != [] then Ordered(r.queue, VotesFor(r.votes)) else r.queue
  {
    UpdatesSortOnce(r, times);
  }

  lemma AddedParts(r: Room, asked: VideoId, subtitle: Option<string>, fetched: QueueItem, times: seq<real>)
    requires Added(r, asked, subtitle, fetched).reply == Accepted
    ensures var added := Added(r, asked, subtitle, fetched).room;
            && added.queue == r.queue + [WithSubtitle(fetched, subtitle)] && added.current == r.current
            && added.votes == r.votes && added.mode == r.mode
            && (NeverOver(r, times) ==> NeverOver(added, times))
  {
    assert Added(r, asked, subtitle, fetched).room.clock == r.clock;
  }

  /** Where an added video is after any number of updates that advance nothing. */
  lemma AdditionMoved(r: Room, asked: VideoId, subtitle: Option<string>, fetched: QueueItem, times: seq<real>)
    returns (front: seq<QueueItem>, back: seq<QueueItem>)
    requires Added(r, asked, subtitle, fetched).reply == Accepted
    requires r.current.Some? && NeverOver(r, times)
    ensures UpdatedAll(Added(r, asked, subtitle, fetched).room, times).current == r.current
    ensures UpdatedAll(Added(r, asked, subtitle, fetched).room, times).queue ==
            front + [WithSubtitle(fetched, subtitle)] + back
    ensures UpdatedAll(r, times).queue == front + back
    ensures multiset(front + back) == multiset(r.queue)
  {
    var item := WithSubtitle(fetched, subtitle);
    var added := Added(r, asked, subtitle, fetched).room;
    AddedParts(r, asked, subtitle, fetched, times);
    UpdatesOrder(r, times);
    UpdatesOrder(added, times);
    if r.mode.Vote? && times != [] {
      front, back := OrderedWithLast(r.queue, item, VotesFor(r.votes));
      OrderedIsStable(r.queue, VotesFor(r.votes));
    } else {
      front, back := r.queue, [];
      assert front + back == r.queue && front + [item] + back == added.queue;
    }
  }

  /** Undoing an addition after any number of updates that advance nothing, and that in vote mode
      moved the new video among the others, gives the queue as it would be without that addition,
      if and only if what was found carries the id that was asked for; otherwise it is refused. */
  lemma UndoAdditionAfterVotes(r: Room, asked: VideoId, subtitle: Option<string>, fetched: QueueItem,
                               times: seq<real>, later: real)
    requires Added(r, asked, subtitle, fetched).reply == Accepted
    requires r.current.Some? && NeverOver(r, times)
    ensures var moved := UpdatedAll(Added(r, asked, subtitle, fetched).room, times);
            var u := Undone(moved, AddEvent(Some(asked)), true, later);
            && u.room.current == r.current
            && (u.room.queue == UpdatedAll(r, times).queue <==> fetched.video == asked)
            && u.reply == (if fetched.video == asked then Accepted else NotQueued)
  {
    var item := WithSubtitle(fetched, subtitle);
    var front, back := AdditionMoved(r, asked, subtitle, fetched, times);
    var moved := UpdatedAll(Added(r, asked, subtitle, fetched).room, times);
    if fetched.video == asked {
      FirstAmong(r.queue, front, item, back, asked);
      UndoAdditionAt(moved, asked, front, item, back, later);
    } else {
      NotAmong(r.queue, front, item, back, asked);
      assert |moved.queue| == |UpdatedAll(r, times).queue| + 1;
    }
  }

  lemma UndoAdditionAt(r: Room, asked: VideoId, front: seq<QueueItem>, item: QueueItem, back: seq<QueueItem>,
                       now: real)
    requires r.queue == front + [item] + back && IndexOf(r.queue, asked) == Some(|front|)
    ensures var u := Undone(r, AddEvent(Some(asked)), true, now);
            u.reply == Accepted && u.room.current == r.current && u.room.queue == front + back
  {
    assert RemovedAt(front + [item] + back, |front|) == front + back;
    assert r.queue != [];
  }

  lemma NotAmong(q: seq<QueueItem>, front: seq<QueueItem>, item: QueueItem, back: seq<QueueItem>, video: VideoId)
    requires IndexOf(q, video).None? && item.video != video
    requires multiset(front + back) == multiset(q)
    ensures IndexOf(front + [item] + back, video).None?
  {
    forall x | x in front + [item] + back
      ensures x.video != video
    {
      assert x == item || x in multiset(front + back);
      assert x == item || x in q;
    }
  }

  lemma FirstAmong(q: seq<QueueItem>, front: seq<QueueItem>, item: QueueItem, back: seq<QueueItem>, video: VideoId)
    requires IndexOf(q, video).None? && item.video == video
    requires multiset(front + back) == multiset(q)
    ensures IndexOf(front + [item] + back, video) == Some(|front|)
  {
    forall j | 0 <= j < |front|
      ensures (front + [item] + back)[j].video != video
    {
      assert (front + back)[j] in multiset(front + back);
      assert front[j] in q;
    }
    assert (front + [item] + back)[|front|] == item;
  }

  // ---------------------------------------------------------------- skipping

  /** What is announced about a skip. */
  function SkipOf(r: Room, now: real): UndoEvent {
    SkipEvent(r.current, Some(Shown(r.clock, now)))
  }

  /** Undoing a skip gives back the current video and the queue if and only if the room neither
      loops nor repeats, and the video was away from position zero. (A video at zero comes back
      only if the queue happened to start with that very video.) */
  lemma UndoSkip(r: Room, who: Option<ClientId>, voters: nat, allowed: bool, now: real, later: real)
    requires SkipPasses(r, who, voters)
    ensures var u := Undone(Skipped(r, who, voters, now), SkipOf(r, now), allowed, later).room;
            SameVideos(u, r) <==>
            && (r.mode.Manual? || r.mode.Vote?)
            && (Shown(r.clock, now) != 0.0 || (r.queue != [] && r.queue[0] == r.current.value))
  {
    SkippedItems(r, who, voters, now);
    UndoneSkipVideos(Skipped(r, who, voters, now), r.current, Shown(r.clock, now), later);
    var next := if r.queue == [] then None else Some(r.queue[0]);
    assert r.mode.Manual? || r.mode.Vote? ==> Skipped(r, who, voters, now).current == next;
    assert r.mode.Loop? || r.mode.Dj? ==> |Items(Skipped(r, who, voters, now))| == |r.queue| + 1;
  }

  lemma SkippedItems(r: Room, who: Option<ClientId>, voters: nat, now: real)
    requires SkipPasses(r, who, voters)
    ensures var s := Skipped(r, who, voters, now);
            && Items(s) == (match r.mode
                            case Loop => r.queue + [Trimmed(r.current.value)]
                            case Dj => [Trimmed(r.current.value)] + r.queue
                            case _ => r.queue)
            && (r.mode.Manual? || r.mode.Vote? ==> (s.current.None? <==> r.queue == []))
            && (s.current.Some? ==> s.current.value == Items(s)[0])
  {
    var voted := if r.enableVoteSkip then SkipVoteToggled(r, who) else r;
    var d := Dequeued(voted, now);
    assert Items(Skipped(r, who, voters, now)) == Items(d);
    if r.mode.Loop? {
      LoopAdvance(voted, now);
    } else if r.mode.Dj? {
      DjAdvance(voted, now);
    } else {
      PlainAdvance(voted, now);
    }
  }

  lemma UndoneSkipVideos(s: Room, video: Option<QueueItem>, prev: real, later: real)
    requires video.Some?
    ensures var u := SkipUndone(s, video, Some(prev), later);
            u.queue == Items(s) && u.current == if prev != 0.0 then video else s.current
  {
  }

  /** Even then the room is not quite as before: the speed stays at 1, and a room that ran out of
      videos stays paused. */
  lemma UndoSkipPlayback(r: Room, who: Option<ClientId>, voters: nat, allowed: bool, now: real, later: real)
    requires SkipPasses(r, who, voters) && (r.mode.Manual? || r.mode.Vote?) && Shown(r.clock, now) != 0.0
    ensures var u := Undone(Skipped(r, who, voters, now), SkipOf(r, now), allowed, later).room;
            && u.clock.position == Shown(r.clock, now)
            && u.clock.speed == 1.0
            && u.clock.playing == (r.clock.playing && r.queue != [])
            && (Shown(u.clock, later) == Shown(r.clock, now) <==> !u.clock.playing || later == now)
  {
    SkippedClock(r, who, voters, now);
    var s := Skipped(r, who, voters, now);
    assert SkipUndone(s, r.current, Some(Shown(r.clock, now)), later).clock ==
           s.clock.(position := Shown(r.clock, now));
  }

  lemma SkippedClock(r: Room, who: Option<ClientId>, voters: nat, now: real)
    requires SkipPasses(r, who, voters) && (r.mode.Manual? || r.mode.Vote?)
    ensures var clock := Skipped(r, who, voters, now).clock;
            clock.start == Some(now) && clock.speed == 1.0 && clock.playing == (r.clock.playing && r.queue != [])
  {
    var voted := if r.enableVoteSkip then SkipVoteToggled(r, who) else r;
    assert Requeued(VotesCleared(voted)).queue == r.queue;
  }

  // ---------------------------------------------------------------- seeking

  /** Undoing a seek goes back to where the room was if and only if that was not position zero, or
      the room comes by zero again just then: it was sought to a point before, and has played the
      distance since. */
  lemma UndoSeek(r: Room, to: real, now: real, later: real)
    ensures var prev := Shown(r.clock, now);
            var u := Undone(Clocked(r, Seek(to), now), SeekEvent(Some(prev)), true, later).room;
            Shown(u.clock, later) == prev <==>
            prev != 0.0 || to == if r.clock.playing then -((later - now) * r.clock.speed) else 0.0
  {
    var prev := Shown(r.clock, now);
    var sought := Clocked(r, Seek(to), now);
    var u := Undone(sought, SeekEvent(Some(prev)), true, later).room;
    if prev != 0.0 {
      assert u.clock == Apply(sought.clock, Seek(prev), later);
      NoJump(sought.clock, Seek(prev), later);
    } else {
      assert u == sought;
      assert sought.clock == r.clock.(position := to, start := Some(now));
      assert Shown(sought.clock, later) == to + if r.clock.playing then (later - now) * r.clock.speed else 0.0;
    }
  }
}
