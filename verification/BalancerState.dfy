/** The balancer's shared state and what each lock-protected section of it does, as
    functions from state to state. `BalancerContext` implements them step by step. */
module BalancerState {
  import opened Options
  import opened RoomNames

  type ClientId = nat
  type MonolithId = nat
  type Region = string
  type Metadata = string

  /** A 32-bit unsigned load epoch. */
  type Epoch = e: nat | e < 0x1_0000_0000

  /** The epoch of a room that was mapped by a join, before any monolith reported it. */
  const PLACEHOLDER_EPOCH: Epoch := 0xFFFF_FFFF

  datatype RoomLocator = RoomLocator(monolith: MonolithId, epoch: Epoch)

  /** A room as one monolith holds it: the ids of this balancer's clients, and the last metadata reported. */
  datatype Room = Room(clients: seq<ClientId>, metadata: Option<Metadata>)

  datatype Monolith = Monolith(region: Region, rooms: map<RoomName, Room>)

  datatype State = State(
    clients: map<ClientId, RoomName>,
    monoliths: map<MonolithId, Monolith>,
    locators: map<RoomName, RoomLocator>,
    regions: map<Region, seq<MonolithId>>)

  const EMPTY: State := State(map[], map[], map[], map[])

  // ---------------------------------------------------------------- sequences

  /** Every element of `s` other than `x`, in order. */
  function Without(s: seq<nat>, x: nat): (r: seq<nat>)
    ensures forall y :: y in r <==> y in s && y != x
  {
    if s == [] then [] else (if s[0] == x then [] else [s[0]]) + Without(s[1..], x)
  }

  ghost predicate NoDuplicates(s: seq<nat>) {
    forall i, j :: 0 <= i < j < |s| ==> s[i] != s[j]
  }

  lemma {:induction false} WithoutKeepsNoDuplicates(s: seq<nat>, x: nat)
    requires NoDuplicates(s)
    ensures NoDuplicates(Without(s, x))
  {
    if s != [] {
      assert forall i :: 0 < i < |s| ==> s[i] == s[1..][i - 1];
      WithoutKeepsNoDuplicates(s[1..], x);
      assert s[0] !in Without(s[1..], x);
    }
  }

  // ---------------------------------------------------------------- one monolith

  /** Remove the client from every room of the monolith. */
  function WithoutClient(m: Monolith, c: ClientId): Monolith {
    m.(rooms := map r | r in m.rooms :: m.rooms[r].(clients := Without(m.rooms[r].clients, c)))
  }

  /** Add the client to the room, creating the room when the monolith does not have it. */
  function WithClient(m: Monolith, r: RoomName, c: ClientId): Monolith {
    var room := if r in m.rooms then m.rooms[r] else Room([], None);
    m.(rooms := m.rooms[r := room.(clients := room.clients + [c])])
  }

  /** Record the room's metadata, creating the room when the monolith does not have it. */
  function WithMetadata(m: Monolith, r: RoomName, md: Metadata): Monolith {
    var room := if r in m.rooms then m.rooms[r] else Room([], None);
    m.(rooms := m.rooms[r := room.(metadata := Some(md))])
  }

  function WithoutRoom(m: Monolith, r: RoomName): Monolith {
    m.(rooms := m.rooms - {r})
  }

  // ---------------------------------------------------------------- monoliths and rooms

  function AddMonolith(s: State, id: MonolithId, region: Region): State {
    var ids := if region in s.regions then s.regions[region] else [];
    s.(monoliths := s.monoliths[id := Monolith(region, map[])],
       regions := s.regions[region := ids + [id]])
  }

  /** Forget the monolith, everything located on it, and every client whose room is no longer located. */
  function RemoveMonolith(s: State, id: MonolithId): (t: State)
    ensures t.monoliths.Keys <= s.monoliths.Keys && t.clients.Keys <= s.clients.Keys
  {
    var locators := map r | r in s.locators && s.locators[r].monolith != id :: s.locators[r];
    var regions :=
      if id in s.monoliths && s.monoliths[id].region in s.regions then
        s.regions[s.monoliths[id].region := Without(s.regions[s.monoliths[id].region], id)]
      else
        s.regions;
    State(map c | c in s.clients && s.clients[c] in locators :: s.clients[c],
          s.monoliths - {id}, locators, regions)
  }

  /** Locate the room, then create it on its monolith. The second half fails when the
      monolith already has the room, and by then the locator has been written. */
  function AddRoom(s: State, r: RoomName, loc: RoomLocator): (t: (State, bool))
    ensures t.0.monoliths.Keys == s.monoliths.Keys && t.0.clients == s.clients && t.0.regions == s.regions
  {
    if loc.monolith !in s.monoliths then (s, false)
    else
      var located := s.(locators := s.locators[r := loc]);
      var m := s.monoliths[loc.monolith];
      if r in m.rooms then (located, false)
      else
        (located.(monoliths := s.monoliths[loc.monolith := m.(rooms := m.rooms[r := Room([], None)])]), true)
  }

  /** Drop the room from the monolith, and its locator when it names that monolith. */
  function RemoveRoom(s: State, r: RoomName, id: MonolithId): (t: State)
    ensures t.monoliths.Keys == s.monoliths.Keys && t.clients == s.clients && t.regions == s.regions
  {
    if id !in s.monoliths then s
    else
      s.(locators := if r in s.locators && s.locators[r].monolith == id then s.locators - {r} else s.locators,
         monoliths := s.monoliths[id := WithoutRoom(s.monoliths[id], r)])
  }

  // ---------------------------------------------------------------- load reports

  /** How a report "monolith `id` has room `r` loaded since epoch `e`" was settled. */
  datatype Verdict =
    | Accepted
    | Rejected                      // an older instance is located elsewhere: unload the reporter's
    | Replaced(previous: MonolithId)// the reporter's instance is older: unload the other one
    | Clashed                       // same epoch on two monoliths
    | UnknownMonolith

  function Locate(s: State, r: RoomName, md: Metadata, id: MonolithId, e: Epoch): (t: State)
    ensures t.monoliths.Keys == s.monoliths.Keys && t.clients == s.clients && t.regions == s.regions
  {
    var located := s.(locators := s.locators[r := RoomLocator(id, e)]);
    if id in s.monoliths then
      located.(monoliths := s.monoliths[id := WithMetadata(s.monoliths[id], r, md)])
    else
      located
  }

  function Report(s: State, r: RoomName, md: Metadata, id: MonolithId, e: Epoch): (t: (State, Verdict))
    ensures t.0.monoliths.Keys == s.monoliths.Keys && t.0.clients == s.clients && t.0.regions == s.regions
  {
    if r in s.locators && s.locators[r].monolith != id then
      var loc := s.locators[r];
      if loc.epoch < e then
        (s, if id in s.monoliths then Rejected else UnknownMonolith)
      else if loc.epoch > e then
        if loc.monolith !in s.monoliths then (s, UnknownMonolith)
        else
          (Locate(RemoveRoom(s, r, loc.monolith), r, md, id, e),
           if id in s.monoliths then Replaced(loc.monolith) else UnknownMonolith)
      else
        (s, Clashed)
    else
      (Locate(s, r, md, id, e), if id in s.monoliths then Accepted else UnknownMonolith)
  }

  /** The variant that holds the lock throughout: it looks the reporter up before it writes the locator. */
  function ReportUnderLock(s: State, r: RoomName, md: Metadata, id: MonolithId, e: Epoch): (State, Verdict) {
    if r in s.locators && s.locators[r].monolith != id then
      var loc := s.locators[r];
      if loc.epoch < e then
        (s, if id in s.monoliths then Rejected else UnknownMonolith)
      else if loc.epoch > e then
        if loc.monolith !in s.monoliths then (s, UnknownMonolith)
        else
          var removed := RemoveRoom(s, r, loc.monolith);
          if id in s.monoliths then (Locate(removed, r, md, id, e), Replaced(loc.monolith))
          else (removed, UnknownMonolith)
      else
        (s, Clashed)
    else if id in s.monoliths then (Locate(s, r, md, id, e), Accepted)
    else (s, UnknownMonolith)
  }

  // ---------------------------------------------------------------- clients

  /** The monoliths a new room may be placed on. */
  function Candidates(s: State, own: Region): set<MonolithId> {
    if own in s.regions then set id | id in s.regions[own] && id in s.monoliths
    else s.monoliths.Keys
  }

  datatype JoinStart =
    | Started(monolith: MonolithId, created: bool)
    | Refused
    | Panicked    // an `unwrap` met a monolith or a room that is not there

  /** First locked section of a join. `choice` is what monolith selection answers when it is asked. */
  function BeginJoin(s: State, r: RoomName, choice: Option<MonolithId>): (t: (State, JoinStart))
    ensures t.0.monoliths.Keys == s.monoliths.Keys && t.0.clients == s.clients && t.0.regions == s.regions
  {
    if r in s.locators then
      var id := s.locators[r].monolith;
      if id in s.monoliths && r in s.monoliths[id].rooms then (s, Started(id, false)) else (s, Panicked)
    else if choice.None? then (s, Refused)
    else
      var (t, ok) := AddRoom(s, r, RoomLocator(choice.value, PLACEHOLDER_EPOCH));
      (t, if ok then Started(choice.value, true) else Refused)
  }

  /** Second locked section of a join, after the monolith was told. */
  function CommitJoin(s: State, c: ClientId, r: RoomName, id: MonolithId): (t: (State, bool))
    ensures t.0.monoliths.Keys == s.monoliths.Keys && t.0.clients.Keys <= s.clients.Keys + {c}
  {
    if id !in s.monoliths then (s, false)
    else
      (s.(monoliths := s.monoliths[id := WithClient(s.monoliths[id], r, c)],
          clients := s.clients[c := r]), true)
  }

  /** Second locked section of a join whose message could not be encoded: undo the room it created. */
  function RollBackJoin(s: State, r: RoomName, id: MonolithId, created: bool): (t: State)
    ensures t.monoliths.Keys == s.monoliths.Keys && t.clients == s.clients
  {
    if created then RemoveRoom(s, r, id) else s
  }

  /** Second locked section of a join whose message could not be delivered. */
  function AbortJoin(s: State, r: RoomName, id: MonolithId, created: bool): (t: State)
    ensures t.monoliths.Keys <= s.monoliths.Keys && t.clients.Keys <= s.clients.Keys
  {
    RemoveMonolith(RollBackJoin(s, r, id, created), id)
  }

  datatype Departure =
    | NotRegistered
    | Unlocated
    | Notify(monolith: MonolithId)

  /** Locked section of a leave; `Notify` names the monolith that is then told. */
  function BeginLeave(s: State, c: ClientId): (t: (State, Departure))
    ensures t.0.monoliths.Keys == s.monoliths.Keys && t.0.clients == s.clients - {c}
  {
    if c !in s.clients then (s, NotRegistered)
    else
      var r := s.clients[c];
      var t := s.(clients := s.clients - {c});
      if r !in s.locators then (t, Unlocated)
      else
        var id := s.locators[r].monolith;
        if id !in s.monoliths then (t, Unlocated)
        else (t.(monoliths := s.monoliths[id := WithoutClient(s.monoliths[id], c)]), Notify(id))
  }

  // ---------------------------------------------------------------- gossip

  datatype GossipRoom = GossipRoom(name: RoomName, metadata: Metadata, epoch: Epoch)

  /** One gossiped room: settle it, and drop it from the sender's table when that failed. */
  function GossipOne(s: State, id: MonolithId, g: GossipRoom): State {
    var (t, verdict) := Report(s, g.name, g.metadata, id, g.epoch);
    if verdict.Accepted? || verdict.Replaced? then t else RemoveRoom(t, g.name, id)
  }

  function GossipAll(s: State, id: MonolithId, gs: seq<GossipRoom>): State {
    if gs == [] then s
    else GossipOne(GossipAll(s, id, gs[..|gs| - 1]), id, gs[|gs| - 1])
  }

  predicate Mentions(gs: seq<GossipRoom>, r: RoomName) {
    exists i :: 0 <= i < |gs| && gs[i].name == r
  }

  /** The rooms the sender has, but does not gossip any more. */
  function Forgotten(s: State, id: MonolithId, gs: seq<GossipRoom>): set<RoomName>
    requires id in s.monoliths
  {
    set r | r in s.monoliths[id].rooms && !Mentions(gs, r)
  }

  function RemoveRooms(s: State, rs: set<RoomName>, id: MonolithId): State
    requires id in s.monoliths
  {
    var m := s.monoliths[id];
    s.(locators := map r | r in s.locators && !(r in rs && s.locators[r].monolith == id) :: s.locators[r],
       monoliths := s.monoliths[id := m.(rooms := m.rooms - rs)])
  }

  /** A whole gossip from a registered monolith, without interleaving. */
  function Gossip(s: State, id: MonolithId, gs: seq<GossipRoom>): State
    requires id in s.monoliths
  {
    var t := GossipAll(s, id, gs);
    if id in t.monoliths then RemoveRooms(t, Forgotten(s, id, gs), id) else t
  }
}
