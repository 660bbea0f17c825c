/** Settling reports that the same room is loaded on several monoliths. */
module LoadConflicts {
  import opened Options
  import opened RoomNames
  import opened BalancerState
  import opened BalancerInvariants

  /** One report about a fixed room. */
  datatype Claim = Claim(monolith: MonolithId, epoch: Epoch, metadata: Metadata)

  function Settle(s: State, r: RoomName, claims: seq<Claim>): State {
    if claims == [] then s
    else
      var c := claims[|claims| - 1];
      Report(Settle(s, r, claims[..|claims| - 1]), r, c.metadata, c.monolith, c.epoch).0
  }

  /** The monoliths that are told to unload the room, in order. */
  function Unloads(s: State, r: RoomName, claims: seq<Claim>): seq<MonolithId> {
    if claims == [] then []
    else
      var c := claims[|claims| - 1];
      var before := claims[..|claims| - 1];
      Unloads(s, r, before) + UnloadFor(Settle(s, r, before), r, c)
  }

  /** Whom one claim makes the balancer tell to unload the room. */
  function UnloadFor(s: State, r: RoomName, c: Claim): seq<MonolithId> {
    match Report(s, r, c.metadata, c.monolith, c.epoch).1
    case Rejected => [c.monolith]
    case Replaced(previous) => [previous]
    case _ => []
  }

  /** Each monolith has one epoch. */
  ghost predicate OneEpochEach(claims: seq<Claim>) {
    forall i, j :: 0 <= i < |claims| && 0 <= j < |claims| ==>
      (claims[i].monolith == claims[j].monolith ==> claims[i].epoch == claims[j].epoch)
  }

  /** Each monolith has one epoch, and different monoliths have different ones. */
  ghost predicate EpochsIdentify(claims: seq<Claim>) {
    forall i, j :: 0 <= i < |claims| && 0 <= j < |claims| ==>
      (claims[i].monolith == claims[j].monolith <==> claims[i].epoch == claims[j].epoch)
  }

  /** Every claimant is registered and claims an epoch below the placeholder. */
  ghost predicate Genuine(s: State, claims: seq<Claim>) {
    forall i :: 0 <= i < |claims| ==>
      claims[i].monolith in s.monoliths && claims[i].epoch < PLACEHOLDER_EPOCH
  }

  ghost predicate IsOldest(claims: seq<Claim>, i: int) {
    0 <= i < |claims| && forall k :: 0 <= k < |claims| ==> claims[i].epoch <= claims[k].epoch
  }

  /** The first of the oldest claims. */
  ghost predicate Leads(claims: seq<Claim>, i: int) {
    IsOldest(claims, i) && forall h :: 0 <= h < i ==> claims[h].epoch > claims[i].epoch
  }

  /** The smallest epoch is claimed by one monolith only. */
  ghost predicate OldestIsOne(claims: seq<Claim>) {
    forall i, j :: IsOldest(claims, i) && IsOldest(claims, j) ==> claims[i].monolith == claims[j].monolith
  }

  function LocatorOf(c: Claim): RoomLocator {
    RoomLocator(c.monolith, c.epoch)
  }

  /** Where the room is located after the claims. */
  function Owner(s: State, r: RoomName, claims: seq<Claim>): Option<RoomLocator> {
    var t := Settle(s, r, claims);
    if r in t.locators then Some(t.locators[r]) else None
  }

  /** The room has not been reported yet: not located, or only placed by a join. */
  predicate Unreported(s: State, r: RoomName) {
    r in s.locators ==> s.locators[r].epoch == PLACEHOLDER_EPOCH
  }

  /** The room's locator, if it has one, names a registered monolith. */
  predicate OwnerThere(s: State, r: RoomName) {
    r in s.locators ==> s.locators[r].monolith in s.monoliths
  }

  // ---------------------------------------------------------------- one claim

  lemma ClaimKeepsOwner(s: State, r: RoomName, c: Claim)
    requires OwnerThere(s, r) && c.monolith in s.monoliths
    ensures var t := Report(s, r, c.metadata, c.monolith, c.epoch).0;
            OwnerThere(t, r) && t.monoliths.Keys == s.monoliths.Keys
  {
  }

  /** What one claim does to the room's locator. */
  lemma ClaimMovesLocator(s: State, r: RoomName, c: Claim)
    requires OwnerThere(s, r) && c.monolith in s.monoliths
    ensures var t := Report(s, r, c.metadata, c.monolith, c.epoch).0;
            && r in t.locators
            && t.locators[r] ==
               if r in s.locators && s.locators[r].monolith != c.monolith && s.locators[r].epoch <= c.epoch
               then s.locators[r]
               else LocatorOf(c)
  {
  }

  /** The loser of one claim is unloaded: the claimant or the previous owner, never both; with equal
      epochs nobody is. */
  lemma ClaimUnloadsLoser(s: State, r: RoomName, c: Claim)
    requires OwnerThere(s, r) && c.monolith in s.monoliths && r in s.locators
    ensures UnloadFor(s, r, c) ==
            if s.locators[r].monolith == c.monolith then []
            else if s.locators[r].epoch < c.epoch then [c.monolith]
            else if s.locators[r].epoch > c.epoch then [s.locators[r].monolith]
            else []
  {
  }

  // ---------------------------------------------------------------- who gets the room

  lemma LeadsOneMore(before: seq<Claim>, c: Claim, i: int)
    requires Leads(before, i)
    ensures Leads(before + [c], if c.epoch < before[i].epoch then |before| else i)
  {
    var claims := before + [c];
    assert forall k :: 0 <= k < |before| ==> claims[k] == before[k];
    assert claims[|before|] == c;
  }

  lemma LeadsUnique(claims: seq<Claim>, i: int, j: int)
    requires Leads(claims, i) && Leads(claims, j)
    ensures i == j
  {
    assert claims[i].epoch <= claims[j].epoch <= claims[i].epoch;
  }

  lemma EarlierClaims(s: State, before: seq<Claim>, c: Claim)
    requires Genuine(s, before + [c]) && OneEpochEach(before + [c])
    ensures Genuine(s, before) && OneEpochEach(before)
    ensures c.monolith in s.monoliths && c.epoch < PLACEHOLDER_EPOCH
    ensures forall i :: 0 <= i < |before| && before[i].monolith == c.monolith ==> before[i].epoch == c.epoch
  {
    var claims := before + [c];
    assert forall i :: 0 <= i < |before| ==> claims[i] == before[i];
    assert claims[|before|] == c;
  }

  /** In `t`, reached from `s`, the room is located by the `i`-th claim, which leads. */
  ghost predicate LocatedBy(s: State, t: State, r: RoomName, claims: seq<Claim>, i: int) {
    && Leads(claims, i)
    && r in t.locators && t.locators[r] == LocatorOf(claims[i])
    && OwnerThere(t, r) && t.monoliths.Keys == s.monoliths.Keys
  }

  lemma FirstClaimWins(s: State, r: RoomName, c: Claim)
    requires OwnerThere(s, r) && Unreported(s, r)
    requires c.monolith in s.monoliths && c.epoch < PLACEHOLDER_EPOCH
    ensures LocatedBy(s, Report(s, r, c.metadata, c.monolith, c.epoch).0, r, [c], 0)
  {
    ClaimKeepsOwner(s, r, c);
    ClaimMovesLocator(s, r, c);
  }

  lemma LaterClaimWins(s: State, u: State, r: RoomName, before: seq<Claim>, c: Claim, i: int)
    requires LocatedBy(s, u, r, before, i) && c.monolith in s.monoliths
    requires before[i].monolith == c.monolith ==> before[i].epoch == c.epoch
    ensures LocatedBy(s, Report(u, r, c.metadata, c.monolith, c.epoch).0, r, before + [c],
                      if c.epoch < before[i].epoch then |before| else i)
  {
    LeadsOneMore(before, c, i);
    ClaimKeepsOwner(u, r, c);
    ClaimMovesLocator(u, r, c);
  }

  lemma SettleOneMore(s: State, r: RoomName, before: seq<Claim>, c: Claim)
    ensures Settle(s, r, before + [c]) == Report(Settle(s, r, before), r, c.metadata, c.monolith, c.epoch).0
    ensures Unloads(s, r, before + [c]) == Unloads(s, r, before) + UnloadFor(Settle(s, r, before), r, c)
  {
    assert (before + [c])[..|before|] == before;
  }

  /** The first of the oldest claims gets the room, whatever comes before, after and again. */
  lemma {:induction false} LeaderWins(s: State, r: RoomName, claims: seq<Claim>) returns (i: int)
    requires OwnerThere(s, r) && Unreported(s, r)
    requires claims != [] && Genuine(s, claims) && OneEpochEach(claims)
    ensures LocatedBy(s, Settle(s, r, claims), r, claims, i)
    decreases |claims|
  {
    var before, c := claims[..|claims| - 1], claims[|claims| - 1];
    assert claims == before + [c];
    EarlierClaims(s, before, c);
    SettleOneMore(s, r, before, c);
    if before == [] {
      i := 0;
      FirstClaimWins(s, r, c);
      assert claims == [c];
    } else {
      i := LeaderWins(s, r, before);
      LaterClaimWins(s, Settle(s, r, before), r, before, c, i);
      i := if c.epoch < before[i].epoch then |before| else i;
    }
  }

  /** A room whose locator names a monolith that is gone is stuck: no claim by any other monolith
      moves anything. Registered claimants with a younger epoch than the recorded one are told to
      unload, and nobody else is. */
  lemma {:induction false} StuckRoom(s: State, r: RoomName, claims: seq<Claim>, m: MonolithId)
    requires r in s.locators && s.locators[r].monolith !in s.monoliths
    requires forall i :: 0 <= i < |claims| ==> claims[i].monolith != s.locators[r].monolith
    ensures Settle(s, r, claims) == s
    ensures m in Unloads(s, r, claims) <==>
            m in s.monoliths &&
            exists i :: 0 <= i < |claims| && claims[i].monolith == m && claims[i].epoch > s.locators[r].epoch
    decreases |claims|
  {
    if claims != [] {
      var before, c := claims[..|claims| - 1], claims[|claims| - 1];
      StuckRoom(s, r, before, m);
      assert m in UnloadFor(s, r, c) <==> m in s.monoliths && c.monolith == m && c.epoch > s.locators[r].epoch;
      if exists i :: 0 <= i < |before| && before[i].monolith == m && before[i].epoch > s.locators[r].epoch {
        var i :| 0 <= i < |before| && before[i].monolith == m && before[i].epoch > s.locators[r].epoch;
        assert claims[i] == before[i];
      }
    }
  }

  /** The oldest claim wins: the room ends up located on the first claimant with the smallest epoch,
      at that epoch, exactly if its locator did not name a monolith that is gone. Different monoliths
      may share an epoch, and nothing is asked of other rooms. */
  lemma OldestClaimWins(s: State, r: RoomName, claims: seq<Claim>)
    requires Unreported(s, r)
    requires claims != [] && Genuine(s, claims) && OneEpochEach(claims)
    ensures (exists i :: Leads(claims, i) && Owner(s, r, claims) == Some(LocatorOf(claims[i]))) <==> OwnerThere(s, r)
  {
    if OwnerThere(s, r) {
      var i := LeaderWins(s, r, claims);
    } else {
      StuckRoom(s, r, claims, 0);
      assert Owner(s, r, claims) == Some(s.locators[r]);
    }
  }

  /** Two balancers that heard the same claims, in whatever order and however often, agree, as long
      as the smallest epoch belongs to one monolith. */
  lemma BalancersAgree(s: State, u: State, r: RoomName, first: seq<Claim>, second: seq<Claim>)
    requires OwnerThere(s, r) && Unreported(s, r) && OwnerThere(u, r) && Unreported(u, r)
    requires first != [] && Genuine(s, first) && Genuine(u, second) && OneEpochEach(first) && OldestIsOne(first)
    requires forall c :: c in first <==> c in second
    ensures Owner(s, r, first).Some? && Owner(u, r, second) == Owner(s, r, first)
  {
    assert first[0] in second;
    forall i, j | 0 <= i < |second| && 0 <= j < |second|
      ensures second[i].monolith == second[j].monolith ==> second[i].epoch == second[j].epoch
    {
      assert second[i] in first && second[j] in first;
    }
    var i := LeaderWins(s, r, first);
    var j := LeaderWins(u, r, second);
    var k := SameOldest(first, second, j);
    assert IsOldest(first, i) && IsOldest(first, k);
  }

  lemma SameOldest(first: seq<Claim>, second: seq<Claim>, j: int) returns (k: int)
    requires forall c :: c in first <==> c in second
    requires IsOldest(second, j)
    ensures IsOldest(first, k) && first[k] == second[j]
  {
    assert second[j] in first;
    k :| 0 <= k < |first| && first[k] == second[j];
    forall h | 0 <= h < |first|
      ensures first[k].epoch <= first[h].epoch
    {
      assert first[h] in second;
    }
  }

  // ---------------------------------------------------------------- when the order decides

  /** The same claims with the `i`-th reported first. */
  function ToFront(claims: seq<Claim>, i: nat): seq<Claim>
    requires i < |claims|
  {
    [claims[i]] + claims[..i] + claims[i + 1..]
  }

  lemma ToFrontReorders(claims: seq<Claim>, i: nat)
    requires i < |claims|
    ensures multiset(ToFront(claims, i)) == multiset(claims)
    ensures forall c :: c in ToFront(claims, i) <==> c in claims
  {
    assert claims == claims[..i] + [claims[i]] + claims[i + 1..];
  }

  /** Whichever of the oldest claims is reported first keeps the room. */
  lemma OrderDecides(s: State, r: RoomName, claims: seq<Claim>, i: nat)
    requires OwnerThere(s, r) && Unreported(s, r)
    requires Genuine(s, claims) && OneEpochEach(claims) && IsOldest(claims, i)
    ensures Owner(s, r, ToFront(claims, i)) == Some(LocatorOf(claims[i]))
  {
    var front := ToFront(claims, i);
    ToFrontReorders(claims, i);
    forall k | 0 <= k < |front|
      ensures front[k] in claims
    {
    }
    assert Leads(front, 0);
    var j := LeaderWins(s, r, front);
    LeadsUnique(front, 0, j);
  }

  /** All orders of the same claims agree exactly when the smallest epoch is claimed by one monolith
      only, or the room is stuck; what other epochs are shared does not matter. */
  lemma OrdersAgreeExactly(s: State, r: RoomName, claims: seq<Claim>)
    requires Unreported(s, r)
    requires claims != [] && Genuine(s, claims) && OneEpochEach(claims)
    ensures (forall other: seq<Claim> :: multiset(other) == multiset(claims) ==>
               Owner(s, r, other) == Owner(s, r, claims)) <==> OldestIsOne(claims) || !OwnerThere(s, r)
  {
    if OldestIsOne(claims) || !OwnerThere(s, r) {
      forall other: seq<Claim> | multiset(other) == multiset(claims)
        ensures Owner(s, r, other) == Owner(s, r, claims)
      {
        ReorderedAgrees(s, r, claims, other);
      }
    } else {
      var i, j :| IsOldest(claims, i) && IsOldest(claims, j) && claims[i].monolith != claims[j].monolith;
      ToFrontReorders(claims, i);
      ToFrontReorders(claims, j);
      OrderDecides(s, r, claims, i);
      OrderDecides(s, r, claims, j);
    }
  }

  lemma ReorderedAgrees(s: State, r: RoomName, claims: seq<Claim>, other: seq<Claim>)
    requires Unreported(s, r)
    requires claims != [] && Genuine(s, claims) && OneEpochEach(claims)
    requires OldestIsOne(claims) || !OwnerThere(s, r)
    requires multiset(other) == multiset(claims)
    ensures Owner(s, r, other) == Owner(s, r, claims)
  {
    assert forall c :: c in other <==> c in multiset(other);
    assert forall c :: c in claims <==> c in multiset(claims);
    forall k | 0 <= k < |other|
      ensures other[k] in claims
    {
    }
    if OwnerThere(s, r) {
      BalancersAgree(s, s, r, claims, other);
    } else {
      StuckRoom(s, r, claims, 0);
      StuckRoom(s, r, other, 0);
    }
  }

  // ---------------------------------------------------------------- who is told to unload

  ghost predicate Claims(claims: seq<Claim>, m: MonolithId) {
    exists i :: 0 <= i < |claims| && claims[i].monolith == m
  }

  /** Somebody older reported before the `i`-th claim. */
  ghost predicate ComesLate(claims: seq<Claim>, i: int)
    requires 0 <= i < |claims|
  {
    exists j :: 0 <= j < i && claims[j].epoch < claims[i].epoch
  }

  /** The `i`-th claim is older than all before it. */
  ghost predicate Led(claims: seq<Claim>, i: int)
    requires 0 <= i < |claims|
  {
    forall h :: 0 <= h < i ==> claims[h].epoch > claims[i].epoch
  }

  /** The `i`-th claim gets the room, and somebody older reports later. */
  ghost predicate IsReplaced(claims: seq<Claim>, i: int)
    requires 0 <= i < |claims|
  {
    && Led(claims, i)
    && (exists j :: i < j < |claims| && claims[j].epoch < claims[i].epoch)
  }

  /** Some claim of the monolith comes late or is replaced. */
  ghost predicate Told(claims: seq<Claim>, m: MonolithId) {
    exists i :: 0 <= i < |claims| && claims[i].monolith == m && (ComesLate(claims, i) || IsReplaced(claims, i))
  }

  lemma ToldStaysTold(before: seq<Claim>, c: Claim, m: MonolithId)
    requires Told(before, m)
    ensures Told(before + [c], m)
  {
    var claims := before + [c];
    assert forall k :: 0 <= k < |before| ==> claims[k] == before[k];
    var i :| 0 <= i < |before| && before[i].monolith == m && (ComesLate(before, i) || IsReplaced(before, i));
    if ComesLate(before, i) {
      var j :| 0 <= j < i && before[j].epoch < before[i].epoch;
      assert claims[j].epoch < claims[i].epoch;
      assert ComesLate(claims, i);
    } else {
      var j :| i < j < |before| && before[j].epoch < before[i].epoch;
      assert claims[j].epoch < claims[i].epoch;
      assert IsReplaced(claims, i);
    }
    assert claims[i].monolith == m;
  }

  /** One more claim tells the claimant, if the leader is older, or the leader, if the claim is. */
  lemma ClaimTells(before: seq<Claim>, c: Claim, i: int)
    requires Leads(before, i)
    ensures before[i].epoch < c.epoch ==> Told(before + [c], c.monolith)
    ensures c.epoch < before[i].epoch ==> Told(before + [c], before[i].monolith)
  {
    var claims := before + [c];
    assert forall k :: 0 <= k < |before| ==> claims[k] == before[k];
    assert claims[|before|] == c;
    if before[i].epoch < c.epoch {
      assert claims[i].epoch < claims[|before|].epoch;
      assert ComesLate(claims, |before|);
    }
    if c.epoch < before[i].epoch {
      assert claims[|before|].epoch < claims[i].epoch;
      assert IsReplaced(claims, i);
    }
  }

  /** And it tells nobody else. */
  lemma ClaimTellsOnly(before: seq<Claim>, c: Claim, i: int, m: MonolithId)
    requires Leads(before, i) && Told(before + [c], m) && !Told(before, m)
    ensures (m == c.monolith && before[i].epoch < c.epoch) || (m == before[i].monolith && c.epoch < before[i].epoch)
  {
    var claims := before + [c];
    assert forall k :: 0 <= k < |before| ==> claims[k] == before[k];
    assert claims[|before|] == c;
    var k :| 0 <= k < |claims| && claims[k].monolith == m && (ComesLate(claims, k) || IsReplaced(claims, k));
    if k < |before| {
      NewlyReplaced(before, c, i, k);
    } else {
      var j :| 0 <= j < k && claims[j].epoch < claims[k].epoch;
      assert before[i].epoch <= before[j].epoch;
    }
  }

  lemma NewlyReplaced(before: seq<Claim>, c: Claim, i: int, k: int)
    requires Leads(before, i) && 0 <= k < |before|
    requires ComesLate(before + [c], k) || IsReplaced(before + [c], k)
    requires !ComesLate(before, k) && !IsReplaced(before, k)
    ensures k == i && c.epoch < before[i].epoch
  {
    StillLate(before, c, k);
    StillReplaced(before, c, k);
    OnlyLeaderStays(before, i, k);
  }

  /** A claim that is older than all before it, and does not lead, is replaced. */
  lemma OnlyLeaderStays(claims: seq<Claim>, i: int, k: int)
    requires Leads(claims, i) && 0 <= k < |claims| && Led(claims, k)
    ensures k == i || IsReplaced(claims, k)
  {
    assert claims[i].epoch <= claims[k].epoch;
  }

  lemma StillLate(before: seq<Claim>, c: Claim, k: int)
    requires 0 <= k < |before|
    ensures ComesLate(before + [c], k) <==> ComesLate(before, k)
  {
    var claims := before + [c];
    assert forall h :: 0 <= h <= k ==> claims[h] == before[h];
    if ComesLate(before, k) {
      var j :| 0 <= j < k && before[j].epoch < before[k].epoch;
      assert claims[j].epoch < claims[k].epoch;
    }
  }

  lemma StillReplaced(before: seq<Claim>, c: Claim, k: int)
    requires 0 <= k < |before|
    ensures IsReplaced(before + [c], k) <==> IsReplaced(before, k) || (Led(before, k) && c.epoch < before[k].epoch)
  {
    var claims := before + [c];
    assert forall h :: 0 <= h < |before| ==> claims[h] == before[h];
    assert claims[|before|] == c;
    if IsReplaced(before, k) {
      var j :| k < j < |before| && before[j].epoch < before[k].epoch;
      assert claims[j].epoch < claims[k].epoch;
    }
    if IsReplaced(claims, k) {
      var j :| k < j < |claims| && claims[j].epoch < claims[k].epoch;
      assert j < |before| ==> before[j].epoch < before[k].epoch;
    }
  }

  /** Exactly who is told to unload, with any epochs shared: a monolith some claim of which comes
      after an older one, or gets the room and is replaced by an older one; and the monolith on which
      a join had placed the room, when another one is the first to report it. */
  lemma {:induction false} UnloadsExactly(s: State, r: RoomName, claims: seq<Claim>, m: MonolithId)
    requires OwnerThere(s, r) && Unreported(s, r)
    requires claims != [] && Genuine(s, claims) && OneEpochEach(claims)
    ensures m in Unloads(s, r, claims) <==> Told(claims, m) || (LocatedOn(s, r, m) && claims[0].monolith != m)
    decreases |claims|
  {
    var before, c := claims[..|claims| - 1], claims[|claims| - 1];
    assert claims == before + [c];
    EarlierClaims(s, before, c);
    if before == [] {
      FirstClaimUnloads(s, r, c, m);
      assert claims[0] == c && Unloads(s, r, claims) == [] + UnloadFor(s, r, c);
    } else {
      UnloadsExactly(s, r, before, m);
      var i := LeaderWins(s, r, before);
      LaterClaimUnloads(Settle(s, r, before), r, before, c, i, m);
    }
  }

  lemma FirstClaimUnloads(s: State, r: RoomName, c: Claim, m: MonolithId)
    requires OwnerThere(s, r) && Unreported(s, r)
    requires c.monolith in s.monoliths && c.epoch < PLACEHOLDER_EPOCH
    ensures m in UnloadFor(s, r, c) <==> LocatedOn(s, r, m) && c.monolith != m
    ensures !Told([c], m)
  {
  }

  lemma LaterClaimUnloads(u: State, r: RoomName, before: seq<Claim>, c: Claim, i: int, m: MonolithId)
    requires OwnerThere(u, r) && c.monolith in u.monoliths
    requires Leads(before, i) && r in u.locators && u.locators[r] == LocatorOf(before[i])
    requires before[i].monolith == c.monolith ==> before[i].epoch == c.epoch
    ensures Told(before + [c], m) <==> m in UnloadFor(u, r, c) || Told(before, m)
  {
    ClaimUnloadsLoser(u, r, c);
    ClaimTells(before, c, i);
    if Told(before, m) {
      ToldStaysTold(before, c, m);
    } else if Told(before + [c], m) {
      ClaimTellsOnly(before, c, i, m);
    }
  }

  lemma FirstClaimOf(claims: seq<Claim>, m: MonolithId) returns (k: int)
    requires Claims(claims, m)
    ensures 0 <= k < |claims| && claims[k].monolith == m
    ensures forall h :: 0 <= h < k ==> claims[h].monolith != m
  {
    k := 0;
    while claims[k].monolith != m
      invariant 0 <= k < |claims|
      invariant forall h :: 0 <= h < k ==> claims[h].monolith != m
      decreases |claims| - k
    {
      var i :| 0 <= i < |claims| && claims[i].monolith == m;
      assert i > k;
      k := k + 1;
    }
  }

  /** When no two monoliths share an epoch, the told ones are the claimants that do not lead. */
  lemma ToldMeansLost(claims: seq<Claim>, i: int, m: MonolithId)
    requires EpochsIdentify(claims) && Leads(claims, i)
    ensures Told(claims, m) <==> Claims(claims, m) && m != claims[i].monolith
  {
    if Claims(claims, m) && m != claims[i].monolith {
      var k := FirstClaimOf(claims, m);
      assert claims[i].epoch < claims[k].epoch;
      if !ComesLate(claims, k) {
        forall h | 0 <= h < k
          ensures claims[h].epoch > claims[k].epoch
        {
        }
        assert IsReplaced(claims, k);
      }
    }
  }

  /** When no two monoliths share an epoch, every claimant that does not end up with the room has
      been told to unload it, the one that does has not, and nobody else has; except for a monolith
      on which a join had placed the room, as above. */
  lemma LosersUnload(s: State, r: RoomName, claims: seq<Claim>, m: MonolithId)
    requires OwnerThere(s, r) && Unreported(s, r)
    requires claims != [] && Genuine(s, claims) && EpochsIdentify(claims)
    ensures r in Settle(s, r, claims).locators
    ensures m in Unloads(s, r, claims) <==>
            || (Claims(claims, m) && m != Settle(s, r, claims).locators[r].monolith)
            || (LocatedOn(s, r, m) && claims[0].monolith != m)
  {
    assert OneEpochEach(claims);
    var i := LeaderWins(s, r, claims);
    UnloadsExactly(s, r, claims, m);
    ToldMeansLost(claims, i, m);
  }
}
