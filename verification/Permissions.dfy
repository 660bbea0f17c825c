/** The table of permissions, parsing of permission names into masks, and what a role may
    be granted at all. A mask is the set of the bit positions that are set. */
module Permissions {

  type Mask = set<nat>
  type Role = int

  const OWNER: Role := -1
  const UNREGISTERED_USER: Role := 0
  const TRUSTED_USER: Role := 2
  const ADMINISTRATOR: Role := 4

  predicate IsRoleValid(role: Role) {
    -1 <= role <= 4
  }

  datatype Permission = Permission(name: string, bit: nat, minRole: Role)

  const PERMISSIONS: seq<Permission> := [
    Permission("playback.play-pause", 0, 0),
    Permission("playback.skip", 1, 0),
    Permission("playback.seek", 2, 0),
    Permission("manage-queue.add", 3, 0),
    Permission("manage-queue.remove", 4, 0),
    Permission("manage-queue.order", 5, 0),
    Permission("manage-queue.vote", 6, 0),
    Permission("chat", 7, 0),
    Permission("configure-room.set-title", 8, 0),
    Permission("configure-room.set-description", 9, 0),
    Permission("configure-room.set-visibility", 10, 0),
    Permission("configure-room.set-queue-mode", 11, 0),
    Permission("configure-room.set-permissions.for-moderator", 12, 4),
    Permission("configure-room.set-permissions.for-trusted-users", 13, 3),
    Permission("configure-room.set-permissions.for-all-registered-users", 14, 2),
    Permission("configure-room.set-permissions.for-all-unregistered-users", 15, 1),
    Permission("manage-users.promote-admin", 16, 4),
    Permission("manage-users.demote-admin", 17, 4),
    Permission("manage-users.promote-moderator", 18, 3),
    Permission("manage-users.demote-moderator", 19, 3),
    Permission("manage-users.promote-trusted-user", 20, 2),
    Permission("manage-users.demote-trusted-user", 21, 2),
    Permission("configure-room.other", 22, 0),
    Permission("playback.speed", 23, 0),
    Permission("manage-users.kick", 24, 2),
    Permission("manage-queue.play-now", 25, 0),
    Permission("manage-queue.edit", 26, 0)
  ]

  lemma EveryMinRoleIsARole(k: nat)
    requires k < |PERMISSIONS|
    ensures 0 <= PERMISSIONS[k].minRole <= 4 && PERMISSIONS[k].bit == k
  {
  }

  // ---------------------------------------------------------------- parsing names

  /** A requested name selects every permission it is a prefix of; a star selects all. */
  predicate Selects(request: string, name: string) {
    request <= name || request == "*"
  }

  /** The bits of the permissions that some request selects. */
  function MaskFor(table: seq<Permission>, requests: seq<string>): Mask {
    set k, i | 0 <= k < |table| && 0 <= i < |requests| && Selects(requests[i], table[k].name) :: table[k].bit
  }

  const ALL: Mask := AllOf(PERMISSIONS)

  method ParseIntoGrantMask(table: seq<Permission>, requests: seq<string>) returns (mask: Mask)
    ensures mask == MaskFor(table, requests)
  {
    mask := {};
    for i := 0 to |requests|
      invariant mask == MaskFor(table, requests[..i])
    {
      ghost var start := mask;
      for k := 0 to |table|
        invariant mask == start + MaskFor(table[..k], [requests[i]])
      {
        ParseOneMore(table, requests[i], k);
        if Selects(requests[i], table[k].name) {
          mask := mask + {table[k].bit};
        }
      }
      assert table[..|table|] == table;
      RequestOneMore(table, requests, i);
    }
    assert requests[..|requests|] == requests;
  }

  lemma ParseOneMore(table: seq<Permission>, request: string, k: nat)
    requires k < |table|
    ensures MaskFor(table[..k + 1], [request]) ==
            MaskFor(table[..k], [request]) + if Selects(request, table[k].name) then {table[k].bit} else {}
  {
    var more, less := table[..k + 1], table[..k];
    assert forall j :: 0 <= j < k ==> more[j] == less[j];
    assert more[k] == table[k] && [request][0] == request;
    forall b
      ensures b in MaskFor(more, [request]) <==>
              b in MaskFor(less, [request]) + if Selects(request, table[k].name) then {table[k].bit} else {}
    {
      if b in MaskFor(less, [request]) {
        var j, i :| 0 <= j < |less| && 0 <= i < 1 && Selects([request][i], less[j].name) && less[j].bit == b;
        assert Selects([request][i], more[j].name) && more[j].bit == b;
      }
      if b in MaskFor(more, [request]) {
        var j, i :| 0 <= j < |more| && 0 <= i < 1 && Selects([request][i], more[j].name) && more[j].bit == b;
        if j < k {
          assert Selects([request][i], less[j].name) && less[j].bit == b;
        }
      }
      if Selects(request, table[k].name) && b == table[k].bit {
        assert Selects([request][0], more[k].name) && more[k].bit == b;
      }
    }
  }

  lemma RequestOneMore(table: seq<Permission>, requests: seq<string>, i: nat)
    requires i < |requests|
    ensures MaskFor(table, requests[..i + 1]) == MaskFor(table, requests[..i]) + MaskFor(table, [requests[i]])
  {
    var more, less, one := requests[..i + 1], requests[..i], [requests[i]];
    assert forall j :: 0 <= j < i ==> more[j] == less[j];
    assert more[i] == requests[i] == one[0];
    forall b
      ensures b in MaskFor(table, more) <==> b in MaskFor(table, less) + MaskFor(table, one)
    {
      if b in MaskFor(table, less) {
        var k, j :| 0 <= k < |table| && 0 <= j < |less| && Selects(less[j], table[k].name) && table[k].bit == b;
        assert Selects(more[j], table[k].name);
      }
      if b in MaskFor(table, one) {
        var k, j :| 0 <= k < |table| && 0 <= j < |one| && Selects(one[j], table[k].name) && table[k].bit == b;
        assert Selects(more[i], table[k].name);
      }
      if b in MaskFor(table, more) {
        var k, j :| 0 <= k < |table| && 0 <= j < |more| && Selects(more[j], table[k].name) && table[k].bit == b;
        if j < i {
          assert Selects(less[j], table[k].name);
        } else {
          assert Selects(one[0], table[k].name);
        }
      }
    }
  }

  /** Parsing is exact: a permission's bit is in the mask precisely when some requested name
      is a star or a prefix of its name. */
  lemma ParsedMaskExact(requests: seq<string>, k: nat)
    requires k < |PERMISSIONS|
    ensures PERMISSIONS[k].bit in MaskFor(PERMISSIONS, requests) <==>
            exists i :: 0 <= i < |requests| && Selects(requests[i], PERMISSIONS[k].name)
  {
    var table := PERMISSIONS;
    forall j | 0 <= j < |table|
      ensures table[j].bit == j
    {
      EveryMinRoleIsARole(j);
    }
  }

  // ---------------------------------------------------------------- what a role may hold

  /** The permissions of the table a role may be granted; when there is none, every permission. */
  function ValidationFor(table: seq<Permission>, role: Role): Mask {
    var allowed := set k | 0 <= k < |table| && role >= table[k].minRole :: table[k].bit;
    if allowed == {} then MaskFor(table, ["*"]) else allowed
  }

  function ValidationMask(role: Role): Mask {
    ValidationFor(PERMISSIONS, role)
  }

  function AllOf(table: seq<Permission>): Mask {
    set k | 0 <= k < |table| :: table[k].bit
  }

  lemma StarSelectsAll(table: seq<Permission>)
    ensures MaskFor(table, ["*"]) == AllOf(table)
  {
    forall k | 0 <= k < |table|
      ensures table[k].bit in MaskFor(table, ["*"])
    {
      assert Selects(["*"][0], table[k].name);
    }
  }

  lemma ValidationForGrows(table: seq<Permission>, role: Role)
    requires IsRoleValid(role)
    requires forall k :: 0 <= k < |table| ==> 0 <= table[k].minRole <= 4
    requires exists k :: 0 <= k < |table| && table[k].minRole == 0
    ensures ValidationFor(table, role) <= AllOf(table)
    ensures role == OWNER || role == ADMINISTRATOR ==> ValidationFor(table, role) == AllOf(table)
    ensures 0 <= role < 4 ==> ValidationFor(table, role) <= ValidationFor(table, role + 1)
  {
    StarSelectsAll(table);
    var z :| 0 <= z < |table| && table[z].minRole == 0;
    if role >= 0 {
      var allowed := set k | 0 <= k < |table| && role >= table[k].minRole :: table[k].bit;
      var more := set k | 0 <= k < |table| && role + 1 >= table[k].minRole :: table[k].bit;
      assert table[z].bit in allowed && table[z].bit in more;
    }
  }

  /** The owner and the administrator may hold everything, and a higher role may hold
      whatever a lower one may. */
  lemma ValidationMaskGrows(role: Role)
    requires IsRoleValid(role)
    ensures ValidationMask(role) <= ALL
    ensures role == OWNER || role == ADMINISTRATOR ==> ValidationMask(role) == ALL
    ensures 0 <= role < 4 ==> ValidationMask(role) <= ValidationMask(role + 1)
    ensures role >= 0 ==>
              forall k :: 0 <= k < |PERMISSIONS| ==>
                (PERMISSIONS[k].bit in ValidationMask(role) <==> role >= PERMISSIONS[k].minRole)
  {
    forall k | 0 <= k < |PERMISSIONS| && role >= 0
      ensures PERMISSIONS[k].bit in ValidationMask(role) <==> role >= PERMISSIONS[k].minRole
    {
      ValidationMaskExact(role, k);
    }
    var table := PERMISSIONS;
    forall k | 0 <= k < |table|
      ensures 0 <= table[k].minRole <= 4
    {
      EveryMinRoleIsARole(k);
    }
    assert table[0].minRole == 0;
    ValidationForGrows(table, role);
  }

  /** A role below the top two may be granted a permission exactly if the permission's minimum role is
      not above it. */
  lemma ValidationMaskExact(role: Role, k: nat)
    requires 0 <= role <= 4 && k < |PERMISSIONS|
    ensures PERMISSIONS[k].bit in ValidationMask(role) <==> role >= PERMISSIONS[k].minRole
  {
    var table := PERMISSIONS;
    forall j | 0 <= j < |table|
      ensures table[j].bit == j
    {
      EveryMinRoleIsARole(j);
    }
    var allowed := set j | 0 <= j < |table| && role >= table[j].minRole :: table[j].bit;
    assert table[0].minRole == 0;
    assert table[0].bit in allowed;
  }

  /** Nobody may be granted a bit that stands for no permission. */
  lemma ValidationMaskKnown(role: Role, bit: nat)
    requires IsRoleValid(role) && bit in ValidationMask(role)
    ensures bit < |PERMISSIONS|
  {
    ValidationMaskGrows(role);
    var k :| 0 <= k < |PERMISSIONS| && PERMISSIONS[k].bit == bit;
    EveryMinRoleIsARole(k);
  }

  /** A name selects what it begins, and only a star selects everything. */
  lemma SelectsExactly(request: string, name: string)
    ensures Selects(request, name) <==> request == "*" || exists rest: string :: name == request + rest
  {
    if Selects(request, name) && request != "*" {
      assert name == request + name[|request|..];
    }
  }
}
