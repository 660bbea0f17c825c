/** The queue of videos: list operations with their error cases, and ordering by votes. */
module VideoQueues {
  import opened Options

  datatype VideoId = VideoId(service: string, id: string)

  /** A queued video. Descriptive metadata other than the length is not modelled. */
  datatype QueueItem = QueueItem(
    video: VideoId,
    length: Option<real>,
    startAt: Option<real>,
    endAt: Option<real>,
    subtitleUrl: Option<string>)

  /** A partial update of the extras of an item; an absent field is left alone. */
  datatype Patch = Patch(startAt: Option<real>, endAt: Option<real>, subtitleUrl: Option<string>)

  datatype Outcome<+T> = Done(value: T) | OutOfBounds | NotFound

  // ---------------------------------------------------------------- the queue as a sequence

  function Inserted<T>(q: seq<T>, x: T, i: nat): seq<T>
    requires i <= |q|
  {
    q[..i] + [x] + q[i..]
  }

  function RemovedAt<T>(q: seq<T>, i: nat): seq<T>
    requires i < |q|
  {
    q[..i] + q[i + 1..]
  }

  function Moved<T>(q: seq<T>, from: nat, to: nat): seq<T>
    requires from < |q| && to < |q|
  {
    Inserted(RemovedAt(q, from), q[from], to)
  }

  /** The first position of a video. */
  function IndexOf(q: seq<QueueItem>, video: VideoId): (i: Option<nat>)
    ensures i.Some? ==> i.value < |q| && q[i.value].video == video
    ensures i.Some? ==> forall j :: 0 <= j < i.value ==> q[j].video != video
    ensures i.None? ==> forall j :: 0 <= j < |q| ==> q[j].video != video
  {
    if q == [] then None
    else
      var before := q[..|q| - 1];
      var i := IndexOf(before, video);
      assert forall j :: 0 <= j < |before| ==> q[j] == before[j];
      if i.Some? then i
      else if q[|q| - 1].video == video then Some(|q| - 1)
      else None
  }

  function Patched(item: QueueItem, patch: Patch): QueueItem {
    item.(startAt := if patch.startAt.Some? then patch.startAt else item.startAt,
          endAt := if patch.endAt.Some? then patch.endAt else item.endAt,
          subtitleUrl := if patch.subtitleUrl.Some? then patch.subtitleUrl else item.subtitleUrl)
  }

  /** Inserting what was removed where it was removed gives the queue back. */
  lemma InsertUndoesRemove<T>(q: seq<T>, i: nat)
    requires i < |q|
    ensures Inserted(RemovedAt(q, i), q[i], i) == q
  {
  }

  lemma RemoveUndoesInsert<T>(q: seq<T>, x: T, i: nat)
    requires i <= |q|
    ensures RemovedAt(Inserted(q, x, i), i) == q
    ensures Inserted(q, x, i)[i] == x
  {
  }

  /** A move puts the item where it was asked for, keeps every other item in order, and is undone
      by the opposite move. */
  lemma MoveMeaning<T>(q: seq<T>, from: nat, to: nat)
    requires from < |q| && to < |q|
    ensures |Moved(q, from, to)| == |q| && Moved(q, from, to)[to] == q[from]
    ensures RemovedAt(Moved(q, from, to), to) == RemovedAt(q, from)
    ensures Moved(Moved(q, from, to), to, from) == q
    ensures multiset(Moved(q, from, to)) == multiset(q)
  {
    RemoveUndoesInsert(RemovedAt(q, from), q[from], to);
    InsertUndoesRemove(q, from);
    InsertedItems(RemovedAt(q, from), q[from], to);
    InsertedItems(RemovedAt(q, from), q[from], from);
  }

  lemma InsertedItems<T>(q: seq<T>, x: T, i: nat)
    requires i <= |q|
    ensures multiset(Inserted(q, x, i)) == multiset(q) + multiset{x}
  {
    assert q == q[..i] + q[i..];
  }

  // ---------------------------------------------------------------- ordering

  type Key = QueueItem -> nat

  ghost predicate Descending(q: seq<QueueItem>, key: Key) {
    forall i, j :: 0 <= i < j < |q| ==> key(q[i]) >= key(q[j])
  }

  /** The items with one key, in the order of the queue. */
  function WithKey(q: seq<QueueItem>, key: Key, n: nat): seq<QueueItem> {
    if q == [] then []
    else (if key(q[0]) == n then [q[0]] else []) + WithKey(q[1..], key, n)
  }

  /** Sorted by descending key, with ties in the old order. */
  ghost predicate StableOrder(q: seq<QueueItem>, r: seq<QueueItem>, key: Key) {
    && Descending(r, key)
    && forall n :: WithKey(r, key, n) == WithKey(q, key, n)
  }

  /** The item goes in front of the first one that does not have a larger key. */
  function Place(x: QueueItem, q: seq<QueueItem>, key: Key): seq<QueueItem> {
    if q == [] || key(q[0]) <= key(x) then [x] + q
    else [q[0]] + Place(x, q[1..], key)
  }

  function Ordered(q: seq<QueueItem>, key: Key): seq<QueueItem> {
    if q == [] then [] else Place(q[0], Ordered(q[1..], key), key)
  }

  lemma {:induction false} PlaceItems(x: QueueItem, q: seq<QueueItem>, key: Key)
    ensures multiset(Place(x, q, key)) == multiset(q) + multiset{x}
  {
    if !(q == [] || key(q[0]) <= key(x)) {
      PlaceItems(x, q[1..], key);
      assert q == [q[0]] + q[1..];
    }
  }

  lemma {:induction false} PlaceDescends(x: QueueItem, q: seq<QueueItem>, key: Key)
    requires Descending(q, key)
    ensures Descending(Place(x, q, key), key)
  {
    if !(q == [] || key(q[0]) <= key(x)) {
      var rest := Place(x, q[1..], key);
      PlaceDescends(x, q[1..], key);
      PlaceItems(x, q[1..], key);
      forall i | 0 <= i < |rest|
        ensures key(rest[i]) <= key(q[0])
      {
        assert rest[i] in multiset(rest);
        assert rest[i] == x || rest[i] in q[1..];
      }
    }
  }

  lemma {:induction false} PlaceIsStable(x: QueueItem, q: seq<QueueItem>, key: Key, n: nat)
    requires Descending(q, key)
    ensures WithKey(Place(x, q, key), key, n) == (if key(x) == n then [x] else []) + WithKey(q, key, n)
  {
    if q == [] || key(q[0]) <= key(x) {
      assert ([x] + q)[1..] == q;
    } else {
      PlaceIsStable(x, q[1..], key, n);
      assert Place(x, q, key)[1..] == Place(x, q[1..], key);
      if key(x) == n {
        assert WithKey(q, key, n) == WithKey(q[1..], key, n);
      }
    }
  }

  /** Ordering keeps exactly the items, sorts them, and keeps ties in the old order. */
  lemma {:induction false} OrderedIsStable(q: seq<QueueItem>, key: Key)
    ensures StableOrder(q, Ordered(q, key), key)
    ensures multiset(Ordered(q, key)) == multiset(q)
    ensures |Ordered(q, key)| == |q|
  {
    if q != [] {
      var rest := Ordered(q[1..], key);
      OrderedIsStable(q[1..], key);
      PlaceDescends(q[0], rest, key);
      PlaceItems(q[0], rest, key);
      forall n
        ensures WithKey(Ordered(q, key), key, n) == WithKey(q, key, n)
      {
        PlaceIsStable(q[0], rest, key, n);
      }
      assert q == [q[0]] + q[1..];
      assert |multiset(Ordered(q, key))| == |multiset(q)|;
    }
  }

  lemma {:induction false} WithKeyMembers(q: seq<QueueItem>, key: Key, i: nat)
    requires i < |q|
    ensures q[i] in WithKey(q, key, key(q[i]))
  {
    if i > 0 {
      WithKeyMembers(q[1..], key, i - 1);
    }
  }

  lemma {:induction false} WithKeyFrom(q: seq<QueueItem>, key: Key, n: nat, x: QueueItem)
    requires x in WithKey(q, key, n)
    ensures x in q && key(x) == n
  {
    if !(key(q[0]) == n && x == q[0]) {
      WithKeyFrom(q[1..], key, n, x);
    }
  }

  /** Two stable orders of one queue start with the same item. */
  lemma SameFirst(q: seq<QueueItem>, r: seq<QueueItem>, s: seq<QueueItem>, key: Key)
    requires StableOrder(q, r, key) && StableOrder(q, s, key)
    requires r != []
    ensures s != [] && r[0] == s[0]
  {
    WithKeyMembers(r, key, 0);
    WithKeyFrom(s, key, key(r[0]), r[0]);
    WithKeyMembers(s, key, 0);
    WithKeyFrom(r, key, key(s[0]), s[0]);
    assert key(r[0]) == key(s[0]);
    assert WithKey(r, key, key(r[0]))[0] == r[0];
    assert WithKey(s, key, key(s[0]))[0] == s[0];
  }

  /** There is only one stable order. */
  lemma {:induction false} StableOrderUnique(q: seq<QueueItem>, r: seq<QueueItem>, s: seq<QueueItem>, key: Key)
    requires StableOrder(q, r, key) && StableOrder(q, s, key)
    ensures r == s
    decreases |r|
  {
    if r != [] {
      SameFirst(q, r, s, key);
      forall n
        ensures WithKey(s[1..], key, n) == WithKey(r[1..], key, n)
      {
        assert WithKey(r, key, n) == WithKey(s, key, n);
        var head := if key(r[0]) == n then [r[0]] else [];
        assert WithKey(r, key, n)[|head|..] == WithKey(r[1..], key, n);
        assert WithKey(s, key, n)[|head|..] == WithKey(s[1..], key, n);
      }
      StableOrderUnique(r[1..], r[1..], s[1..], key);
      assert r == [r[0]] + r[1..] && s == [s[0]] + s[1..];
    } else if s != [] {
      SameFirst(q, s, r, key);
    }
  }

  /** Ordering leaves a queue alone exactly when it is in order already; so doing it twice is
      doing it once. */
  lemma OrderedWhenSorted(q: seq<QueueItem>, key: Key)
    ensures Ordered(q, key) == q <==> Descending(q, key)
    ensures Ordered(Ordered(q, key), key) == Ordered(q, key)
  {
    OrderedIsStable(q, key);
    if Descending(q, key) {
      StableOrderUnique(q, Ordered(q, key), q, key);
    }
    var o := Ordered(q, key);
    OrderedIsStable(o, key);
    StableOrderUnique(o, Ordered(o, key), o, key);
  }

  // ---------------------------------------------------------------- the queue as an object

  class VideoQueue {
    var items: seq<QueueItem>
    var dirty: bool

    constructor (items: seq<QueueItem>)
      ensures this.items == items && !dirty
    {
      this.items := items;
      dirty := false;
    }

    method Set(items: seq<QueueItem>)
      modifies this
      ensures this.items == items && dirty
    {
      this.items := items;
      dirty := true;
    }

    method Enqueue(videos: seq<QueueItem>)
      modifies this
      ensures items == old(items) + videos
      ensures dirty == (old(dirty) || videos != [])
    {
      if |videos| == 0 {
        return;
      }
      items := items + videos;
      dirty := true;
    }

    method Dequeue() returns (item: Option<QueueItem>)
      modifies this
      ensures item == if old(items) == [] then None else Some(old(items)[0])
      ensures items == if old(items) == [] then [] else old(items)[1..]
      ensures dirty
    {
      if |items| == 0 {
        item := None;
      } else {
        item := Some(items[0]);
        items := items[1..];
      }
      dirty := true;
    }

    method PushTop(videos: seq<QueueItem>)
      modifies this
      ensures items == videos + old(items)
      ensures dirty == (old(dirty) || videos != [])
    {
      if |videos| == 0 {
        return;
      }
      items := videos + items;
      dirty := true;
    }

    method Insert(video: QueueItem, index: int) returns (r: Outcome<()>)
      modifies this
      ensures r.Done? <==> 0 <= index <= |old(items)|
      ensures r.Done? ==> items == Inserted(old(items), video, index) && dirty
      ensures !r.Done? ==> r.OutOfBounds? && items == old(items) && dirty == old(dirty)
    {
      if index < 0 || index > |items| {
        return OutOfBounds;
      }
      var newItems := items[..index];
      items := items[index..];
      newItems := newItems + [video];
      newItems := newItems + items;
      items := newItems;
      dirty := true;
      r := Done(());
    }

    /** Moving an item onto itself is accepted even out of bounds. */
    method Move(from: int, to: int) returns (r: Outcome<()>)
      modifies this
      ensures r.Done? <==> from == to || (0 <= from < |old(items)| && 0 <= to < |old(items)|)
      ensures r.Done? && from != to ==> items == Moved(old(items), from, to) && dirty
      ensures !r.Done? ==> r.OutOfBounds?
      ensures !r.Done? || from == to ==> items == old(items) && dirty == old(dirty)
    {
      if from == to {
        return Done(());
      }
      if from < 0 || from >= |items| {
        return OutOfBounds;
      }
      if to < 0 || to >= |items| {
        return OutOfBounds;
      }
      var item := items[from];
      items := items[..from] + items[from + 1..];
      items := items[..to] + [item] + items[to..];
      dirty := true;
      r := Done(());
    }

    method FindIndex(video: VideoId) returns (i: Option<nat>)
      ensures i == IndexOf(items, video)
    {
      for k := 0 to |items|
        invariant forall j :: 0 <= j < k ==> items[j].video != video
      {
        if items[k].video == video {
          return Some(k);
        }
      }
      return None;
    }

    method Evict(video: VideoId) returns (r: Outcome<(nat, QueueItem)>)
      modifies this
      ensures r.Done? <==> IndexOf(old(items), video).Some?
      ensures r.Done? ==>
                var i := IndexOf(old(items), video).value;
                r.value == (i, old(items)[i]) && items == RemovedAt(old(items), i) && dirty
      ensures !r.Done? ==> r.NotFound? && items == old(items) && dirty == old(dirty)
    {
      var i := FindIndex(video);
      if i.None? {
        return NotFound;
      }
      var removed := items[i.value];
      items := items[..i.value] + items[i.value + 1..];
      dirty := true;
      r := Done((i.value, removed));
    }

    method Update(video: VideoId, patch: Patch) returns (r: Outcome<()>)
      modifies this
      ensures r.Done? <==> IndexOf(old(items), video).Some?
      ensures r.Done? ==>
                var i := IndexOf(old(items), video).value;
                items == old(items)[i := Patched(old(items)[i], patch)] && dirty
      ensures !r.Done? ==> r.NotFound? && items == old(items) && dirty == old(dirty)
    {
      var i := FindIndex(video);
      if i.None? {
        return NotFound;
      }
      items := items[i.value := Patched(items[i.value], patch)];
      dirty := true;
      r := Done(());
    }

    /** Puts the queue into its one stable order, and marks it dirty exactly when that moved
        something. */
    method OrderBy(key: Key)
      modifies this
      ensures items == Ordered(old(items), key)
      ensures dirty == (old(dirty) || items != old(items))
    {
      var oldOrder := items;
      items := Sort(items, key);
      OrderedIsStable(oldOrder, key);
      var same := EveryEqual(items, oldOrder);
      if |items| > 0 && !same {
        dirty := true;
      }
    }

    /** Any permutation; the queue is not marked dirty. */
    method Shuffle(shuffled: seq<QueueItem>)
      requires multiset(shuffled) == multiset(items)
      modifies this
      ensures items == shuffled && dirty == old(dirty)
    {
      items := shuffled;
    }
  }

  method EveryEqual(a: seq<QueueItem>, b: seq<QueueItem>) returns (same: bool)
    requires |a| == |b|
    ensures same <==> a == b
  {
    for i := 0 to |a|
      invariant a[..i] == b[..i]
    {
      if a[i] != b[i] {
        return false;
      }
      assert a[..i + 1] == a[..i] + [a[i]];
      assert b[..i + 1] == b[..i] + [b[i]];
    }
    assert a[..|a|] == a && b[..|b|] == b;
    return true;
  }

  /** A stable sort, largest key first. */
  method Sort(q: seq<QueueItem>, key: Key) returns (sorted: seq<QueueItem>)
    ensures sorted == Ordered(q, key)
  {
    sorted := [];
    var n := |q|;
    while n > 0
      invariant 0 <= n <= |q|
      invariant sorted == Ordered(q[n..], key)
    {
      n := n - 1;
      assert q[n..][1..] == q[n + 1..];
      sorted := PlaceItem(q[n], sorted, key);
    }
  }

  method PlaceItem(x: QueueItem, q: seq<QueueItem>, key: Key) returns (r: seq<QueueItem>)
    ensures r == Place(x, q, key)
  {
    var i := 0;
    while i < |q| && key(q[i]) > key(x)
      invariant i <= |q|
      invariant Place(x, q, key) == q[..i] + Place(x, q[i..], key)
    {
      PlaceBehind(x, q, key, i);
      i := i + 1;
    }
    r := q[..i] + [x] + q[i..];
    assert Place(x, q[i..], key) == [x] + q[i..];
  }

  lemma PlaceBehind(x: QueueItem, q: seq<QueueItem>, key: Key, i: nat)
    requires i < |q| && key(q[i]) > key(x)
    ensures q[..i] + Place(x, q[i..], key) == q[..i + 1] + Place(x, q[i + 1..], key)
  {
    assert q[i..][1..] == q[i + 1..];
    assert q[..i + 1] == q[..i] + [q[i]];
  }
}
