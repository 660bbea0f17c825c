/** The list and row shapes in which grants and user roles are stored, and that loading them
    back gives what was stored. */
module RoomStorage {
  import opened Permissions
  import opened Grants

  // ---------------------------------------------------------------- maps as lists of pairs

  /** The map a list of pairs stands for; a later pair overrides an earlier one. */
  function MapOf<V>(pairs: seq<(Role, V)>): map<Role, V> {
    if pairs == [] then map[]
    else
      var last := pairs[|pairs| - 1];
      MapOf(pairs[..|pairs| - 1])[last.0 := last.1]
  }

  /** The list holds each entry of the map once, in some order. */
  ghost predicate ListsMap<V>(pairs: seq<(Role, V)>, m: map<Role, V>) {
    && (forall i, j :: 0 <= i < j < |pairs| ==> pairs[i].0 != pairs[j].0)
    && (forall i :: 0 <= i < |pairs| ==> pairs[i].0 in m && pairs[i].1 == m[pairs[i].0])
    && (forall r :: r in m ==> exists i :: 0 <= i < |pairs| && pairs[i].0 == r)
  }

  ghost predicate ListsSet(list: seq<nat>, s: set<nat>) {
    && (forall i, j :: 0 <= i < j < |list| ==> list[i] != list[j])
    && (forall x :: x in list <==> x in s)
  }

  lemma {:induction false} MapOfKeys<V>(pairs: seq<(Role, V)>, r: Role)
    ensures r in MapOf(pairs) <==> exists i :: 0 <= i < |pairs| && pairs[i].0 == r
    decreases |pairs|
  {
    if pairs != [] {
      var before := pairs[..|pairs| - 1];
      MapOfKeys(before, r);
      if r in MapOf(before) {
        var i :| 0 <= i < |before| && before[i].0 == r;
        assert pairs[i].0 == r;
      }
      if exists i :: 0 <= i < |pairs| && pairs[i].0 == r {
        var i :| 0 <= i < |pairs| && pairs[i].0 == r;
        assert i < |before| ==> before[i].0 == r;
      }
    }
  }

  lemma {:induction false} MapOfValues<V>(pairs: seq<(Role, V)>, i: nat)
    requires i < |pairs|
    requires forall j, k :: 0 <= j < k < |pairs| ==> pairs[j].0 != pairs[k].0
    ensures pairs[i].0 in MapOf(pairs) && MapOf(pairs)[pairs[i].0] == pairs[i].1
    decreases |pairs|
  {
    var before := pairs[..|pairs| - 1];
    if i < |before| {
      MapOfValues(before, i);
      assert pairs[i].0 != pairs[|pairs| - 1].0;
    }
  }

  /** Whatever order the entries were listed in, the map comes back. */
  lemma ListedMapReturns<V>(pairs: seq<(Role, V)>, m: map<Role, V>)
    requires ListsMap(pairs, m)
    ensures MapOf(pairs) == m
  {
    forall r
      ensures r in MapOf(pairs) <==> r in m
      ensures r in m ==> MapOf(pairs)[r] == m[r]
    {
      MapOfKeys(pairs, r);
      if r in m {
        var i :| 0 <= i < |pairs| && pairs[i].0 == r;
        MapOfValues(pairs, i);
      }
    }
  }

  /** Of several pairs for a role the last one counts. */
  lemma {:induction false} LastPairCounts<V>(front: seq<(Role, V)>, role: Role, value: V, back: seq<(Role, V)>)
    requires forall i :: 0 <= i < |back| ==> back[i].0 != role
    ensures role in MapOf(front + [(role, value)] + back) && MapOf(front + [(role, value)] + back)[role] == value
    decreases |back|
  {
    var all := front + [(role, value)] + back;
    if back == [] {
      assert all[..|all| - 1] == front;
    } else {
      LastPairCounts(front, role, value, back[..|back| - 1]);
      assert all[..|all| - 1] == front + [(role, value)] + back[..|back| - 1];
      assert back[|back| - 1].0 != role;
    }
  }

  method ReadPairs<V>(pairs: seq<(Role, V)>) returns (m: map<Role, V>)
    ensures m == MapOf(pairs)
  {
    m := map[];
    for i := 0 to |pairs|
      invariant m == MapOf(pairs[..i])
    {
      assert pairs[..i + 1][..i] == pairs[..i];
      m := m[pairs[i].0 := pairs[i].1];
    }
    assert pairs[..|pairs|] == pairs;
  }

  // ---------------------------------------------------------------- grants

  /** The grants as a list, in the order the map yields them. */
  method ToJson(masks: Masks) returns (pairs: seq<(Role, Mask)>)
    ensures ListsMap(pairs, masks)
  {
    pairs := [];
    var rest := masks.Keys;
    while rest != {}
      invariant rest <= masks.Keys
      invariant forall i :: 0 <= i < |pairs| ==> pairs[i].0 !in rest
      invariant ListsMap(pairs, masks - rest)
      decreases rest
    {
      NonEmptyHas(rest);
      var r :| r in rest;
      ListOneMore(pairs, masks - rest, masks - (rest - {r}), r);
      pairs := pairs + [(r, masks[r])];
      rest := rest - {r};
    }
    assert masks - rest == masks;
  }

  lemma ListOneMore(pairs: seq<(Role, Mask)>, m: Masks, n: Masks, r: Role)
    requires ListsMap(pairs, m) && r !in m && r in n && n - {r} == m
    ensures ListsMap(pairs + [(r, n[r])], n)
  {
    var more := pairs + [(r, n[r])];
    forall i | 0 <= i < |pairs|
      ensures more[i].0 in n && more[i].1 == n[more[i].0] && more[i].0 != r
    {
      assert pairs[i].0 in m && pairs[i].0 in n - {r};
    }
    forall q | q in n
      ensures exists i :: 0 <= i < |more| && more[i].0 == q
    {
      if q == r {
        assert more[|pairs|].0 == q;
      } else {
        assert q in m;
        var i :| 0 <= i < |pairs| && pairs[i].0 == q;
        assert more[i].0 == q;
      }
    }
  }

  /** Storing a room in the database drops administrator and owner. */
  method GrantsToDb(masks: Masks) returns (pairs: seq<(Role, Mask)>)
    ensures ListsMap(pairs, masks - {ADMINISTRATOR, OWNER})
  {
    var filtered := masks;
    filtered := filtered - {ADMINISTRATOR};
    filtered := filtered - {OWNER};
    assert filtered == masks - {ADMINISTRATOR, OWNER};
    pairs := ToJson(filtered);
  }

  /** A good object is rebuilt exactly from its listed masks, with or without the two roles that
      the constructor fills in by itself. */
  lemma GoodReturnsFromList(limits: Limits, masks: Masks, dropped: set<Role>, pairs: seq<(Role, Mask)>)
    requires LimitsOk(limits) && Good(limits, masks)
    requires dropped <= {ADMINISTRATOR, OWNER}
    requires ListsMap(pairs, masks - dropped)
    ensures Constructed(limits, MapOf(pairs)) == masks
  {
    ListedMapReturns(pairs, masks - dropped);
    RebuiltFromLowerRoles(limits, masks, MapOf(pairs));
  }

  /** Grants survive storage: every object that a constructor made and any writes to the lower
      roles changed is rebuilt with identical masks for all roles. The database drops the two
      highest roles, Redis keeps all six. */
  lemma GrantsSurviveStorage(limits: Limits, given: Masks, writes: seq<Write>, dropped: set<Role>,
                             pairs: seq<(Role, Mask)>)
    requires LimitsOk(limits)
    requires forall r :: r in Effective(given) ==> IsRoleValid(r)
    requires forall i :: 0 <= i < |writes| ==> 0 <= writes[i].role <= 3
    requires dropped == {ADMINISTRATOR, OWNER} || dropped == {}
    requires ListsMap(pairs, AfterWrites(limits, Constructed(limits, given), writes) - dropped)
    ensures Constructed(limits, MapOf(pairs)) == AfterWrites(limits, Constructed(limits, given), writes)
  {
    ConstructedGood(limits, given);
    WritesKeepGood(limits, Constructed(limits, given), writes);
    GoodReturnsFromList(limits, AfterWrites(limits, Constructed(limits, given), writes), dropped, pairs);
  }

  // ---------------------------------------------------------------- user roles

  type UserRoles = map<Role, set<nat>>

  /** The three role columns of a stored room. */
  datatype RoleColumns = RoleColumns(trusted: seq<nat>, moderator: seq<nat>, administrator: seq<nat>)

  function Column(row: RoleColumns, role: Role): seq<nat>
    requires TRUSTED_USER <= role <= ADMINISTRATOR
  {
    if role == 2 then row.trusted else if role == 3 then row.moderator else row.administrator
  }

  function UsersOf(roles: UserRoles, role: Role): set<nat> {
    if role in roles then roles[role] else {}
  }

  ghost predicate StoresRoles(row: RoleColumns, roles: UserRoles) {
    forall role :: 2 <= role <= 4 ==> ListsSet(Column(row, role), UsersOf(roles, role))
  }

  method ListSet(s: set<nat>) returns (list: seq<nat>)
    ensures ListsSet(list, s)
  {
    list := [];
    var rest := s;
    while rest != {}
      invariant rest <= s
      invariant ListsSet(list, s - rest)
      decreases rest
    {
      var x :| x in rest;
      assert x !in list;
      list := list + [x];
      rest := rest - {x};
    }
  }

  method RolesToDb(roles: UserRoles) returns (row: RoleColumns)
    ensures StoresRoles(row, roles)
  {
    row := RoleColumns([], [], []);
    for role: int := 2 to 5
      invariant forall r :: 2 <= r < role ==> ListsSet(Column(row, r), UsersOf(roles, r))
    {
      var list := ListSet(UsersOf(roles, role));
      if role == 2 {
        row := row.(trusted := list);
      } else if role == 3 {
        row := row.(moderator := list);
      } else {
        row := row.(administrator := list);
      }
    }
  }

  function SetOf(list: seq<nat>): set<nat> {
    set x | x in list
  }

  function RolesOf(row: RoleColumns): UserRoles {
    map role: Role | 2 <= role <= 4 :: SetOf(Column(row, role))
  }

  method DbToRoles(row: RoleColumns) returns (roles: UserRoles)
    ensures roles == RolesOf(row)
  {
    roles := map[];
    for role: int := 2 to 5
      invariant forall r :: r in roles <==> 2 <= r < role
      invariant forall r :: 2 <= r < role ==> roles[r] == SetOf(Column(row, r))
    {
      roles := roles[role := SetOf(Column(row, role))];
    }
  }

  /** User roles survive the database: every elevated role keeps its users, and the map is the
      same exactly when it had just the three elevated roles. */
  lemma UserRolesSurviveDatabase(roles: UserRoles, row: RoleColumns)
    requires StoresRoles(row, roles)
    ensures forall r :: 2 <= r <= 4 ==> r in RolesOf(row) && RolesOf(row)[r] == UsersOf(roles, r)
    ensures RolesOf(row) == roles <==> forall r :: r in roles <==> 2 <= r <= 4
  {
    var back := RolesOf(row);
    forall r | 2 <= r <= 4
      ensures r in back && back[r] == UsersOf(roles, r)
    {
      assert ListsSet(Column(row, r), UsersOf(roles, r));
      assert back[r] == SetOf(Column(row, r));
    }
    assert forall r :: r in back <==> 2 <= r <= 4;
    if forall r :: r in roles <==> 2 <= r <= 4 {
      assert back.Keys == roles.Keys;
      forall r | r in roles
        ensures back[r] == roles[r]
      {
        assert back[r] == UsersOf(roles, r);
      }
    }
  }

  // ---------------------------------------------------------------- user roles in Redis

  function SetsOf(pairs: seq<(Role, seq<nat>)>): UserRoles {
    if pairs == [] then map[]
    else
      var last := pairs[|pairs| - 1];
      SetsOf(pairs[..|pairs| - 1])[last.0 := SetOf(last.1)]
  }

  method RedisToRoles(pairs: seq<(Role, seq<nat>)>) returns (roles: UserRoles)
    ensures roles == SetsOf(pairs)
  {
    roles := map[];
    for i := 0 to |pairs|
      invariant roles == SetsOf(pairs[..i])
    {
      assert pairs[..i + 1][..i] == pairs[..i];
      roles := roles[pairs[i].0 := SetOf(pairs[i].1)];
    }
    assert pairs[..|pairs|] == pairs;
  }

  /** The list holds each role once, with its users listed in some order. */
  ghost predicate ListsRoles(pairs: seq<(Role, seq<nat>)>, roles: UserRoles) {
    && (forall i, j :: 0 <= i < j < |pairs| ==> pairs[i].0 != pairs[j].0)
    && (forall i :: 0 <= i < |pairs| ==> pairs[i].0 in roles && ListsSet(pairs[i].1, roles[pairs[i].0]))
    && (forall r :: r in roles ==> exists i :: 0 <= i < |pairs| && pairs[i].0 == r)
  }

  lemma {:induction false} SetsOfIsMapOf(pairs: seq<(Role, seq<nat>)>, sets: seq<(Role, set<nat>)>)
    requires |sets| == |pairs|
    requires forall i :: 0 <= i < |pairs| ==> sets[i] == (pairs[i].0, SetOf(pairs[i].1))
    ensures SetsOf(pairs) == MapOf(sets)
    decreases |pairs|
  {
    if pairs != [] {
      SetsOfIsMapOf(pairs[..|pairs| - 1], sets[..|sets| - 1]);
    }
  }

  /** User roles survive Redis whatever the order of the lists. */
  lemma UserRolesSurviveRedis(roles: UserRoles, pairs: seq<(Role, seq<nat>)>)
    requires ListsRoles(pairs, roles)
    ensures SetsOf(pairs) == roles
  {
    var sets := seq(|pairs|, i requires 0 <= i < |pairs| => (pairs[i].0, SetOf(pairs[i].1)));
    SetsOfIsMapOf(pairs, sets);
    forall i | 0 <= i < |sets|
      ensures sets[i].0 in roles && sets[i].1 == roles[sets[i].0]
    {
      assert ListsSet(pairs[i].1, roles[pairs[i].0]);
    }
    forall r | r in roles
      ensures exists i :: 0 <= i < |sets| && sets[i].0 == r
    {
      var i :| 0 <= i < |pairs| && pairs[i].0 == r;
      assert sets[i].0 == r;
    }
    ListedMapReturns(sets, roles);
  }
}
