/** Role grants: what each role may do, with inheritance from lower to higher roles that is
    recomputed on every write. */
module Grants {
  import opened Permissions

  datatype Outcome = Ok | InvalidRole(role: Role)

  type Masks = map<Role, Mask>

  /** What each role may hold at all, and everything there is to hold. */
  datatype Limits = Limits(mask: Role -> Mask, all: Mask)

  /** The limits of the program's own table of permissions. */
  const LIMITS: Limits := Limits(ValidationMask, ALL)

  /** The owner and the administrator may hold everything, higher roles at least as much as
      lower ones. */
  ghost predicate LimitsOk(limits: Limits) {
    && limits.mask(OWNER) == limits.mask(ADMINISTRATOR) == limits.all != {}
    && limits.mask(0) <= limits.mask(1) <= limits.mask(2) <= limits.mask(3) <= limits.all
  }

  lemma ProgramLimitsOk()
    ensures LimitsOk(LIMITS)
  {
    ValidationMaskGrows(OWNER);
    ValidationMaskGrows(0);
    ValidationMaskGrows(1);
    ValidationMaskGrows(2);
    ValidationMaskGrows(3);
    ValidationMaskGrows(4);
    AllNotEmpty();
  }

  lemma AllNotEmpty()
    ensures ALL != {}
  {
    EveryMinRoleIsARole(0);
    assert PERMISSIONS[0].bit in ALL;
  }

  /** A missing mask counts as no permissions. */
  function MaskOf(masks: Masks, role: Role): Mask {
    if role in masks then masks[role] else {}
  }

  // ---------------------------------------------------------------- specification of the writes

  /** The union of the masks of the roles up to `i`. */
  function Cumulative(masks: Masks, i: nat): Mask {
    (if i == 0 then {} else Cumulative(masks, i - 1)) + MaskOf(masks, i)
  }

  function CumulativeBelow(masks: Masks, i: nat): Mask {
    if i == 0 then {} else Cumulative(masks, i - 1)
  }

  /** The roles that inherit from each other. */
  function Ladder(): (roles: set<Role>)
    ensures forall r :: r in roles <==> 0 <= r <= 4
  {
    {0, 1, 2, 3, 4}
  }

  function Inherited(masks: Masks): (t: Masks)
    ensures forall r :: r in t <==> r in masks || 0 <= r <= 4
  {
    map r | r in masks.Keys + Ladder() :: if 0 <= r <= 4 then Cumulative(masks, r) else masks[r]
  }

  function WithRole(limits: Limits, masks: Masks, role: Role, mask: Mask): Masks {
    Inherited(masks[role := mask * limits.mask(role)])
  }

  /** The union, over the roles up to `i`, of what each was given within what it may hold. */
  function Given(limits: Limits, given: Masks, i: nat): Mask {
    (if i == 0 then {} else Given(limits, given, i - 1)) + MaskOf(given, i) * limits.mask(i)
  }

  /** The non-empty entries of a map of grants, which are the ones that are written. */
  function Effective(given: Masks): Masks {
    map r | r in given && given[r] != {} :: given[r]
  }

  /** The masks that a whole map of grants produces, in closed form. */
  function ClosedForm(limits: Limits, given: Masks): Masks {
    var written := Effective(given);
    if written == map[] then map[]
    else map r | r in written.Keys + Ladder() ::
           if 0 <= r <= 4 then Given(limits, written, r) else written[r] * limits.mask(r)
  }

  /** What the constructor makes of a map of grants: the closed form, with administrator and
      owner forced to hold everything. */
  function Constructed(limits: Limits, given: Masks): Masks {
    WithRole(limits, WithRole(limits, ClosedForm(limits, given), ADMINISTRATOR, limits.all), OWNER, limits.all)
  }

  /** The reader for stored strings forces only the owner. */
  function Deserialized(limits: Limits, given: Masks): Masks {
    WithRole(limits, ClosedForm(limits, given), OWNER, limits.all)
  }

  /** The roles below `i` have their cumulative masks, everything else is untouched. */
  ghost predicate InheritedBelow(before: Masks, after: Masks, i: int) {
    && (forall r :: r in after <==> r in before || 0 <= r < i)
    && (forall r :: 0 <= r < i ==> after[r] == Cumulative(before, r))
    && (forall r :: r in before && !(0 <= r < i) ==> after[r] == before[r])
  }

  lemma InheritedPointwise(before: Masks, after: Masks)
    requires InheritedBelow(before, after, 5)
    ensures after == Inherited(before)
  {
    assert after.Keys == Inherited(before).Keys;
  }

  lemma NonEmptyHas(roles: set<Role>)
    requires roles != {}
    ensures exists r :: r in roles
  {
    assert (forall r :: r !in roles) ==> roles == {};
  }

  /** Writing stopped at an invalid role: the entries taken before it are written, in closed form,
      and the others are not. */
  ghost predicate StoppedAt(given: Masks, rest: set<Role>, role: Role, masks: Masks) {
    && rest <= given.Keys && role in rest && given[role] != {} && !IsRoleValid(role)
    && (forall r :: r in Effective(given - rest) ==> IsRoleValid(r))
    && masks == ClosedForm(LIMITS, given - rest)
  }

  /** The role holds a permission exactly if the role below did, or it was asked for and the role is not
      below its minimum. */
  ghost predicate GivesExactly(before: Masks, after: Masks, role: Role, mask: Mask) {
    forall k :: 0 <= k < |PERMISSIONS| ==>
      (PERMISSIONS[k].bit in MaskOf(after, role) <==>
       || (role > 0 && PERMISSIONS[k].bit in MaskOf(before, role - 1))
       || (PERMISSIONS[k].bit in mask && role >= PERMISSIONS[k].minRole))
  }

  class Grants {
    var masks: Masks

    constructor Empty()
      ensures masks == map[]
    {
      masks := map[];
    }

    method ProcessInheritance()
      modifies this
      ensures masks == Inherited(old(masks))
    {
      var full: Mask := {};
      for i: int := 0 to 5
        invariant full == CumulativeBelow(old(masks), i)
        invariant InheritedBelow(old(masks), masks, i)
      {
        assert MaskOf(masks, i) == MaskOf(old(masks), i);
        full := full + MaskOf(masks, i);
        masks := masks[i := full];
      }
      InheritedPointwise(old(masks), masks);
    }

    method SetRoleGrants(role: Role, mask: Mask) returns (outcome: Outcome)
      modifies this
      ensures outcome == if IsRoleValid(role) then Ok else InvalidRole(role)
      ensures masks == if IsRoleValid(role) then WithRole(LIMITS, old(masks), role, mask) else old(masks)
      ensures Good(LIMITS, old(masks)) && 0 <= role <= 3 ==> GivesExactly(old(masks), masks, role, mask)
    {
      if !IsRoleValid(role) {
        return InvalidRole(role);
      }
      ghost var before := masks;
      masks := masks[role := mask * LIMITS.mask(role)];
      ProcessInheritance();
      if Good(LIMITS, before) && 0 <= role <= 3 {
        WriteGives(before, role, mask);
      }
      outcome := Ok;
    }

    /** The entries are taken in whatever order the map yields them. */
    method SetAllGrants(given: Masks) returns (outcome: Outcome)
      modifies this
      ensures outcome.Ok? <==> forall r :: r in Effective(given) ==> IsRoleValid(r)
      ensures outcome.Ok? ==> masks == ClosedForm(LIMITS, given)
      ensures outcome.InvalidRole? ==> exists rest :: StoppedAt(given, rest, outcome.role, masks)
    {
      masks := map[];
      var rest := given.Keys;
      assert given - rest == map[];
      while rest != {}
        invariant rest <= given.Keys
        invariant forall r :: r in Effective(given - rest) ==> IsRoleValid(r)
        invariant masks == ClosedForm(LIMITS, given - rest)
        decreases rest
      {
        NonEmptyHas(rest);
        var role :| role in rest;
        if given[role] != {} {
          outcome := SetRoleGrants(role, given[role]);
          if outcome.InvalidRole? {
            assert role in Effective(given);
            assert StoppedAt(given, rest, role, masks);
            return;
          }
        }
        WriteNext(LIMITS, given, rest, role);
        rest := rest - {role};
      }
      assert given - rest == given;
      outcome := Ok;
    }

    method Reset(given: Masks) returns (outcome: Outcome)
      modifies this
      ensures outcome.Ok? <==> forall r :: r in Effective(given) ==> IsRoleValid(r)
      ensures outcome.Ok? ==> masks == Constructed(LIMITS, given)
      ensures outcome.InvalidRole? ==> exists rest :: StoppedAt(given, rest, outcome.role, masks)
    {
      outcome := SetAllGrants(given);
      if outcome.Ok? {
        var _ := SetRoleGrants(ADMINISTRATOR, LIMITS.all);
        var _ := SetRoleGrants(OWNER, LIMITS.all);
      }
    }

    /** What an object gets that is made without any grants. */
    method ResetToDefault() returns (outcome: Outcome)
      modifies this
      ensures outcome.Ok? && masks == Constructed(LIMITS, DEFAULT_GRANTS)
    {
      DefaultRolesValid();
      outcome := Reset(DEFAULT_GRANTS);
      var made := masks;
      DefaultsAreGood();
      outcome := Reset(made);
    }

    /** A permission given as an object stands for its own bit. */
    method GrantedPermission(role: Role, permission: Permission) returns (granted: bool)
      ensures granted <==> permission.bit in MaskOf(masks, role)
    {
      var check := {permission.bit};
      var full := MaskOf(masks, role);
      granted := full * check == check;
      assert granted ==> permission.bit in full * check;
    }

    method Granted(role: Role, table: seq<Permission>, request: string) returns (granted: bool)
      ensures granted <==> MaskFor(table, [request]) <= MaskOf(masks, role)
    {
      var check := ParseIntoGrantMask(table, [request]);
      var full := MaskOf(masks, role);
      granted := full * check == check;
    }
  }

  // ---------------------------------------------------------------- the closed form

  lemma EffectiveSelf(done: Masks)
    requires forall r :: r in done ==> done[r] != {}
    ensures Effective(done) == done
  {
    var e := Effective(done);
    forall r
      ensures r in e <==> r in done
      ensures r in e ==> e[r] == done[r]
    {
    }
  }

  lemma EffectiveTwice(limits: Limits, given: Masks)
    ensures Effective(Effective(given)) == Effective(given)
    ensures ClosedForm(limits, Effective(given)) == ClosedForm(limits, given)
  {
  }

  lemma EffectiveNext(given: Masks, rest: set<Role>, role: Role)
    requires rest <= given.Keys && role in rest
    ensures role !in Effective(given - rest)
    ensures Effective(given - (rest - {role})) ==
            if given[role] == {} then Effective(given - rest) else Effective(given - rest)[role := given[role]]
  {
    var left := Effective(given - (rest - {role}));
    var right := if given[role] == {} then Effective(given - rest) else Effective(given - rest)[role := given[role]];
    forall r
      ensures r in left <==> r in right
      ensures r in left ==> left[r] == right[r]
    {
    }
  }

  /** Taking one more entry of the map, empty or not. */
  lemma WriteNext(limits: Limits, given: Masks, rest: set<Role>, role: Role)
    requires rest <= given.Keys && role in rest && (given[role] != {} ==> IsRoleValid(role))
    requires forall r :: r in Effective(given - rest) ==> IsRoleValid(r)
    ensures forall r :: r in Effective(given - (rest - {role})) ==> IsRoleValid(r)
    ensures ClosedForm(limits, given - (rest - {role})) ==
            if given[role] == {} then ClosedForm(limits, given - rest)
            else WithRole(limits, ClosedForm(limits, given - rest), role, given[role])
  {
    EffectiveNext(given, rest, role);
    EffectiveTwice(limits, given - rest);
    EffectiveTwice(limits, given - (rest - {role}));
    if given[role] != {} {
      WriteKeepsClosedForm(limits, Effective(given - rest), role, given[role]);
    }
  }

  lemma {:induction false} GivenGrows(limits: Limits, given: Masks, i: nat, j: nat)
    requires i <= j
    ensures Given(limits, given, i) <= Given(limits, given, j)
    decreases j
  {
    if i < j {
      GivenGrows(limits, given, i, j - 1);
    }
  }

  lemma AbsorbSubset(a: Mask, b: Mask)
    requires a <= b
    ensures a + b == b
  {
  }

  /** Adding one role's entry adds its permissions to that role and every higher one. */
  lemma {:induction false} GivenWithEntry(limits: Limits, given: Masks, role: Role, mask: Mask, i: nat)
    requires role !in given
    ensures Given(limits, given[role := mask], i) ==
            Given(limits, given, i) + if 0 <= role <= i then mask * limits.mask(role) else {}
  {
    if i > 0 {
      GivenWithEntry(limits, given, role, mask, i - 1);
    }
  }

  lemma {:induction false} CumulativeWithEntry(limits: Limits, masks: Masks, given: Masks, role: Role, mask: Mask,
                                               i: nat)
    requires role !in given && i <= 4
    requires forall r :: 0 <= r <= 4 ==> MaskOf(masks, r) == Given(limits, given, r)
    ensures Cumulative(masks[role := mask], i) == Given(limits, given, i) + if 0 <= role <= i then mask else {}
  {
    if i > 0 {
      CumulativeWithEntry(limits, masks, given, role, mask, i - 1);
      GivenGrows(limits, given, i - 1, i);
    }
    if role == i {
      assert Given(limits, given, i) == if i == 0 then {} else Given(limits, given, i - 1);
    }
  }

  /** Writing a role that was not written yet turns the closed form of the roles written so
      far into the closed form with that role added: the order of the writes is irrelevant. */
  lemma WriteKeepsClosedForm(limits: Limits, done: Masks, role: Role, mask: Mask)
    requires IsRoleValid(role) && role !in done && mask != {}
    requires forall r :: r in done ==> done[r] != {} && IsRoleValid(r)
    ensures WithRole(limits, ClosedForm(limits, done), role, mask) == ClosedForm(limits, done[role := mask])
  {
    var before, more := ClosedForm(limits, done), done[role := mask];
    var now := mask * limits.mask(role);
    EffectiveSelf(done);
    EffectiveSelf(more);
    assert role in more;
    ClosedFormMasks(limits, done);
    forall i: nat | i <= 4
      ensures Cumulative(before[role := now], i) == Given(limits, more, i)
    {
      CumulativeWithEntry(limits, before, done, role, now, i);
      GivenWithEntry(limits, done, role, mask, i);
    }
    var left, right := WithRole(limits, before, role, mask), ClosedForm(limits, more);
    forall r
      ensures r in left <==> r in right
      ensures r in left ==> left[r] == right[r]
    {
    }
  }

  lemma ClosedFormMasks(limits: Limits, done: Masks)
    requires Effective(done) == done
    ensures forall r :: 0 <= r <= 4 ==> MaskOf(ClosedForm(limits, done), r) == Given(limits, done, r)
  {
    forall r | 0 <= r <= 4
      ensures MaskOf(ClosedForm(limits, done), r) == Given(limits, done, r)
    {
      if done == map[] {
        GivenNothing(limits, r);
      }
    }
  }

  lemma {:induction false} GivenNothing(limits: Limits, i: nat)
    ensures Given(limits, map[], i) == {}
  {
    if i > 0 {
      GivenNothing(limits, i - 1);
    }
  }

  // ---------------------------------------------------------------- what a write does

  ghost predicate Increasing(masks: Masks) {
    && MaskOf(masks, 0) <= MaskOf(masks, 1) <= MaskOf(masks, 2) <= MaskOf(masks, 3) <= MaskOf(masks, 4)
  }

  /** What role `i` holds after a write of `now` to `role`. */
  function AfterWrite(masks: Masks, role: Role, now: Mask, i: nat): Mask {
    if i < role || role < 0 then MaskOf(masks, i)
    else if i == role then (if i == 0 then {} else MaskOf(masks, i - 1)) + now
    else MaskOf(masks, i) + now
  }

  lemma {:induction false} CumulativeAfterWrite(masks: Masks, role: Role, now: Mask, i: nat)
    requires Increasing(masks) && IsRoleValid(role) && i <= 4
    ensures Cumulative(masks[role := now], i) == AfterWrite(masks, role, now, i)
  {
    var after := masks[role := now];
    assert MaskOf(after, i) == if i == role then now else MaskOf(masks, i);
    if i > 0 {
      CumulativeAfterWrite(masks, role, now, i - 1);
      assert MaskOf(masks, i - 1) <= MaskOf(masks, i);
      assert Cumulative(after, i) == AfterWrite(masks, role, now, i - 1) + MaskOf(after, i);
    }
  }

  /** What a write does. The role itself gets what it was given within its limits plus what the
      next lower role has; higher roles only gain, so taking a permission away from one role
      does not take it away from the roles above; lower roles keep theirs. */
  lemma WriteMeaning(limits: Limits, masks: Masks, role: Role, mask: Mask, i: nat)
    requires Increasing(masks) && IsRoleValid(role) && i <= 4
    ensures MaskOf(WithRole(limits, masks, role, mask), i) == AfterWrite(masks, role, mask * limits.mask(role), i)
    ensures MaskOf(WithRole(limits, masks, role, mask), OWNER) ==
            if role == OWNER then mask * limits.mask(OWNER) else MaskOf(masks, OWNER)
  {
    CumulativeAfterWrite(masks, role, mask * limits.mask(role), i);
  }

  lemma WriteKeepsIncreasing(limits: Limits, masks: Masks, role: Role, mask: Mask)
    requires Increasing(masks) && IsRoleValid(role)
    ensures Increasing(WithRole(limits, masks, role, mask))
  {
    WriteMeaning(limits, masks, role, mask, 0);
    WriteMeaning(limits, masks, role, mask, 1);
    WriteMeaning(limits, masks, role, mask, 2);
    WriteMeaning(limits, masks, role, mask, 3);
    WriteMeaning(limits, masks, role, mask, 4);
  }

  // ---------------------------------------------------------------- what every grants object satisfies

  /** Exactly the six roles have masks. */
  ghost predicate Complete(masks: Masks) {
    forall r :: r in masks <==> -1 <= r <= 4
  }

  ghost predicate WithinLimits(limits: Limits, masks: Masks) {
    forall i: nat :: i <= 3 ==> MaskOf(masks, i) <= limits.mask(i)
  }

  /** All six roles have masks, each within what the role may hold, growing from role to role,
      with administrator and owner full. */
  ghost predicate Good(limits: Limits, masks: Masks) {
    && Complete(masks) && Increasing(masks) && WithinLimits(limits, masks)
    && MaskOf(masks, OWNER) == MaskOf(masks, ADMINISTRATOR) == limits.all
  }

  lemma SameMasks(a: Masks, b: Masks)
    requires Complete(a) && Complete(b)
    requires forall r :: -1 <= r <= 4 ==> MaskOf(a, r) == MaskOf(b, r)
    ensures a == b
  {
    forall r
      ensures r in a <==> r in b
      ensures r in a ==> a[r] == b[r]
    {
      assert -1 <= r <= 4 ==> MaskOf(a, r) == MaskOf(b, r);
    }
  }

  /** Of a written role, the mask stays within the limits of every role from there on. */
  lemma AfterWriteWithin(limits: Limits, masks: Masks, role: Role, mask: Mask, i: nat)
    requires LimitsOk(limits) && WithinLimits(limits, masks) && IsRoleValid(role) && i <= 3
    ensures AfterWrite(masks, role, mask * limits.mask(role), i) <= limits.mask(i)
  {
    assert MaskOf(masks, i) <= limits.mask(i);
    if i > 0 {
      assert MaskOf(masks, i - 1) <= limits.mask(i - 1) <= limits.mask(i);
    }
    if 0 <= role <= i {
      assert limits.mask(role) <= limits.mask(i);
    }
  }

  lemma WriteKeepsLimits(limits: Limits, masks: Masks, role: Role, mask: Mask)
    requires LimitsOk(limits) && WithinLimits(limits, masks) && Increasing(masks) && IsRoleValid(role)
    ensures WithinLimits(limits, WithRole(limits, masks, role, mask))
  {
    forall i: nat | i <= 3
      ensures MaskOf(WithRole(limits, masks, role, mask), i) <= limits.mask(i)
    {
      WriteMeaning(limits, masks, role, mask, i);
      AfterWriteWithin(limits, masks, role, mask, i);
    }
  }

  /** A write to a good object keeps it good exactly when it does not shrink the administrator
      or the owner; so every write to one of the four lower roles keeps it good. */
  lemma WriteKeepsGood(limits: Limits, masks: Masks, role: Role, mask: Mask)
    requires LimitsOk(limits) && Good(limits, masks) && IsRoleValid(role)
    ensures Good(limits, WithRole(limits, masks, role, mask)) <==>
            (role == ADMINISTRATOR ==> limits.all <= MaskOf(masks, 3) + mask) && (role == OWNER ==> limits.all <= mask)
  {
    WriteKeepsIncreasing(limits, masks, role, mask);
    WriteKeepsLimits(limits, masks, role, mask);
    WriteKeepsFull(limits, masks, role, mask);
    assert Complete(WithRole(limits, masks, role, mask));
  }

  lemma WriteKeepsFull(limits: Limits, masks: Masks, role: Role, mask: Mask)
    requires LimitsOk(limits) && Good(limits, masks) && IsRoleValid(role)
    ensures var after := WithRole(limits, masks, role, mask);
            && (MaskOf(after, ADMINISTRATOR) == limits.all <==>
                  (role == ADMINISTRATOR ==> limits.all <= MaskOf(masks, 3) + mask))
            && (MaskOf(after, OWNER) == limits.all <==> (role == OWNER ==> limits.all <= mask))
  {
    WriteMeaning(limits, masks, role, mask, 4);
    if 0 <= role <= 3 {
      assert limits.mask(role) <= limits.all;
    }
  }

  datatype Write = Write(role: Role, mask: Mask)

  function AfterWrites(limits: Limits, masks: Masks, writes: seq<Write>): Masks {
    if writes == [] then masks
    else
      var w := writes[|writes| - 1];
      WithRole(limits, AfterWrites(limits, masks, writes[..|writes| - 1]), w.role, w.mask)
  }

  /** Any sequence of writes to the four lower roles keeps the masks growing from role to role,
      within what each role may hold, with administrator and owner full. */
  lemma {:induction false} WritesKeepGood(limits: Limits, masks: Masks, writes: seq<Write>)
    requires LimitsOk(limits) && Good(limits, masks)
    requires forall i :: 0 <= i < |writes| ==> 0 <= writes[i].role <= 3
    ensures Good(limits, AfterWrites(limits, masks, writes))
    decreases |writes|
  {
    if writes != [] {
      var before, w := writes[..|writes| - 1], writes[|writes| - 1];
      WritesKeepGood(limits, masks, before);
      WriteKeepsGood(limits, AfterWrites(limits, masks, before), w.role, w.mask);
    }
  }

  // ---------------------------------------------------------------- the constructor

  lemma {:induction false} GivenWithin(limits: Limits, given: Masks, i: nat)
    requires LimitsOk(limits) && i <= 3
    ensures Given(limits, given, i) <= limits.mask(i)
  {
    if i > 0 {
      GivenWithin(limits, given, i - 1);
    }
  }

  lemma {:induction false} GivenOfEffective(limits: Limits, given: Masks, i: nat)
    ensures Given(limits, Effective(given), i) == Given(limits, given, i)
  {
    assert MaskOf(Effective(given), i) == MaskOf(given, i);
    if i > 0 {
      GivenOfEffective(limits, given, i - 1);
    }
  }

  /** The closed form, role by role. */
  lemma ClosedFormMask(limits: Limits, given: Masks, i: nat)
    requires i <= 4
    ensures MaskOf(ClosedForm(limits, given), i) == Given(limits, given, i)
  {
    EffectiveTwice(limits, given);
    ClosedFormMasks(limits, Effective(given));
    GivenOfEffective(limits, given, i);
  }

  lemma ClosedFormIncreasing(limits: Limits, given: Masks)
    ensures Increasing(ClosedForm(limits, given))
  {
    forall i: nat | i <= 4
      ensures MaskOf(ClosedForm(limits, given), i) == Given(limits, given, i)
    {
      ClosedFormMask(limits, given, i);
    }
    GivenGrows(limits, given, 0, 1);
    GivenGrows(limits, given, 1, 2);
    GivenGrows(limits, given, 2, 3);
    GivenGrows(limits, given, 3, 4);
  }

  lemma GivenSkips(limits: Limits, given: Masks, role: Role)
    requires 0 <= role && role !in given
    ensures Given(limits, given, role) == if role == 0 then {} else Given(limits, given, role - 1)
  {
  }

  lemma SkippedRole(limits: Limits, given: Masks, role: Role)
    requires 0 <= role <= 4 && role !in given
    ensures MaskOf(ClosedForm(limits, given), role) ==
            if role == 0 then {} else MaskOf(ClosedForm(limits, given), role - 1)
  {
    ClosedFormMask(limits, given, role);
    GivenSkips(limits, given, role);
    if role > 0 {
      ClosedFormMask(limits, given, role - 1);
    }
  }

  /** The older form of grants also writes entries that are empty. Writing nothing to a role that
      was not given anything changes no role's mask. */
  lemma EmptyWriteChangesNothing(limits: Limits, given: Masks, role: Role, i: nat)
    requires 0 <= role <= 4 && role !in given && i <= 4
    ensures MaskOf(WithRole(limits, ClosedForm(limits, given), role, {}), i) == MaskOf(ClosedForm(limits, given), i)
  {
    ClosedFormIncreasing(limits, given);
    SkippedRole(limits, given, role);
    EmptyWrite(limits, ClosedForm(limits, given), role, i);
  }

  lemma EmptyWrite(limits: Limits, masks: Masks, role: Role, i: nat)
    requires Increasing(masks) && 0 <= role <= 4 && i <= 4
    requires MaskOf(masks, role) == if role == 0 then {} else MaskOf(masks, role - 1)
    ensures MaskOf(WithRole(limits, masks, role, {}), i) == MaskOf(masks, i)
  {
    WriteMeaning(limits, masks, role, {}, i);
    NothingWritten(masks, role, i, {} * limits.mask(role));
  }

  lemma NothingWritten(masks: Masks, role: Role, i: nat, nothing: Mask)
    requires 0 <= role && nothing == {}
    requires MaskOf(masks, role) == if role == 0 then {} else MaskOf(masks, role - 1)
    ensures AfterWrite(masks, role, nothing, i) == MaskOf(masks, i)
  {
  }

  lemma ClosedFormKeys(limits: Limits, given: Masks, r: Role)
    requires forall q :: q in Effective(given) ==> IsRoleValid(q)
    ensures r in ClosedForm(limits, given) ==> IsRoleValid(r)
    ensures MaskOf(ClosedForm(limits, given), OWNER) == MaskOf(given, OWNER) * limits.mask(OWNER)
  {
  }

  /** In every object the constructor makes, the four lower roles hold the closed form, and
      administrator and owner hold everything. */
  lemma ConstructedMask(limits: Limits, given: Masks, i: nat)
    requires LimitsOk(limits) && i <= 4
    ensures MaskOf(Constructed(limits, given), i) == if i == 4 then limits.all else Given(limits, given, i)
    ensures MaskOf(Constructed(limits, given), OWNER) == limits.all
    ensures Increasing(Constructed(limits, given))
  {
    var closed := ClosedForm(limits, given);
    var admin := WithRole(limits, closed, ADMINISTRATOR, limits.all);
    ClosedFormIncreasing(limits, given);
    ClosedFormMask(limits, given, i);
    ClosedFormMask(limits, given, 3);
    GivenWithin(limits, given, 3);
    WriteKeepsIncreasing(limits, closed, ADMINISTRATOR, limits.all);
    WriteKeepsIncreasing(limits, admin, OWNER, limits.all);
    WriteMeaning(limits, closed, ADMINISTRATOR, limits.all, i);
    WriteMeaning(limits, admin, OWNER, limits.all, i);
    AbsorbSubset(Given(limits, given, 3), limits.all);
  }

  lemma ConstructedComplete(limits: Limits, given: Masks)
    requires forall r :: r in Effective(given) ==> IsRoleValid(r)
    ensures Complete(Constructed(limits, given))
  {
    var closed := ClosedForm(limits, given);
    forall r | r in closed
      ensures IsRoleValid(r)
    {
      ClosedFormKeys(limits, given, r);
    }
    var admin := WithRole(limits, closed, ADMINISTRATOR, limits.all);
    assert forall r :: r in admin ==> IsRoleValid(r);
  }

  /** Every object the constructor makes from valid roles is good. */
  lemma ConstructedGood(limits: Limits, given: Masks)
    requires LimitsOk(limits)
    requires forall r :: r in Effective(given) ==> IsRoleValid(r)
    ensures Good(limits, Constructed(limits, given))
  {
    var all := Constructed(limits, given);
    ConstructedMask(limits, given, 4);
    forall i: nat | i <= 3
      ensures MaskOf(all, i) <= limits.mask(i)
    {
      ConstructedMask(limits, given, i);
      GivenWithin(limits, given, i);
    }
    ConstructedComplete(limits, given);
  }

  // ---------------------------------------------------------------- rebuilding from stored masks

  /** Given the masks of a good object, each lower role is given exactly what it had. */
  lemma {:induction false} GivenOfGood(limits: Limits, masks: Masks, given: Masks, i: nat)
    requires LimitsOk(limits) && Good(limits, masks) && i <= 3
    requires forall r :: 0 <= r <= 3 ==> MaskOf(given, r) == MaskOf(masks, r)
    ensures Given(limits, given, i) == MaskOf(masks, i)
  {
    assert MaskOf(masks, i) <= limits.mask(i);
    assert MaskOf(given, i) * limits.mask(i) == MaskOf(masks, i);
    if i > 0 {
      GivenOfGood(limits, masks, given, i - 1);
      AbsorbSubset(MaskOf(masks, i - 1), MaskOf(masks, i));
    }
  }

  lemma RebuiltLowerMask(limits: Limits, masks: Masks, given: Masks, i: nat)
    requires LimitsOk(limits) && Good(limits, masks) && i <= 3
    requires forall r :: 0 <= r <= 3 ==> MaskOf(given, r) == MaskOf(masks, r)
    ensures MaskOf(Constructed(limits, given), i) == MaskOf(masks, i)
  {
    GivenOfGood(limits, masks, given, i);
    ConstructedMask(limits, given, i);
  }

  lemma CompleteGoodSame(limits: Limits, a: Masks, b: Masks)
    requires Good(limits, a) && Good(limits, b)
    requires forall i: nat :: i <= 3 ==> MaskOf(a, i) == MaskOf(b, i)
    ensures a == b
  {
    forall r | -1 <= r <= 4
      ensures MaskOf(a, r) == MaskOf(b, r)
    {
    }
    SameMasks(a, b);
  }

  /** Rebuilding from any map that has the four lower roles right gives the same object back,
      whether or not administrator and owner were stored. */
  lemma RebuiltFromLowerRoles(limits: Limits, masks: Masks, given: Masks)
    requires LimitsOk(limits) && Good(limits, masks)
    requires forall r :: r in given ==> IsRoleValid(r)
    requires forall r :: 0 <= r <= 3 ==> MaskOf(given, r) == MaskOf(masks, r)
    ensures Constructed(limits, given) == masks
  {
    ConstructedGood(limits, given);
    forall i: nat | i <= 3
      ensures MaskOf(Constructed(limits, given), i) == MaskOf(masks, i)
    {
      RebuiltLowerMask(limits, masks, given, i);
    }
    CompleteGoodSame(limits, Constructed(limits, given), masks);
  }

  /** Replacing all grants by those of a good object copies it exactly. */
  lemma ClosedFormOfGood(limits: Limits, masks: Masks)
    requires LimitsOk(limits) && Good(limits, masks)
    ensures ClosedForm(limits, masks) == masks
  {
    var closed := ClosedForm(limits, masks);
    assert OWNER in Effective(masks);
    forall r | -1 <= r <= 4
      ensures MaskOf(closed, r) == MaskOf(masks, r)
    {
      if 0 <= r <= 3 {
        GivenOfGood(limits, masks, masks, r);
        ClosedFormMask(limits, masks, r);
      } else if r == 4 {
        GivenOfGood(limits, masks, masks, 3);
        ClosedFormMask(limits, masks, 4);
        AbsorbSubset(MaskOf(masks, 3), MaskOf(masks, 4));
      } else {
        ClosedFormKeys(limits, masks, r);
      }
    }
    forall r
      ensures r in closed <==> -1 <= r <= 4
    {
      ClosedFormKeys(limits, masks, r);
    }
    SameMasks(closed, masks);
  }

  /** Reading a stored string forces the owner only: the administrator holds just what the
      string gives it, and so the object is good exactly when the string gives it everything. */
  lemma DeserializedForcesOwnerOnly(limits: Limits, given: Masks)
    requires LimitsOk(limits)
    ensures MaskOf(Deserialized(limits, given), OWNER) == limits.all
    ensures MaskOf(Deserialized(limits, given), ADMINISTRATOR) == Given(limits, given, 4)
    ensures (forall r :: r in Effective(given) ==> IsRoleValid(r)) ==>
              (Good(limits, Deserialized(limits, given)) <==> Given(limits, given, 4) == limits.all)
    ensures Good(limits, Deserialized(limits, given)) ==> limits.all <= Given(limits, given, 4)
  {
    ClosedFormIncreasing(limits, given);
    ClosedFormMask(limits, given, 4);
    WriteMeaning(limits, ClosedForm(limits, given), OWNER, limits.all, 4);
    WriteKeepsIncreasing(limits, ClosedForm(limits, given), OWNER, limits.all);
    DeserializedWithin(limits, given);
    if forall r :: r in Effective(given) ==> IsRoleValid(r) {
      DeserializedComplete(limits, given);
    }
  }

  lemma DeserializedWithin(limits: Limits, given: Masks)
    requires LimitsOk(limits)
    ensures WithinLimits(limits, Deserialized(limits, given))
  {
    ClosedFormIncreasing(limits, given);
    forall i: nat | i <= 3
      ensures MaskOf(Deserialized(limits, given), i) <= limits.mask(i)
    {
      WriteMeaning(limits, ClosedForm(limits, given), OWNER, limits.all, i);
      ClosedFormMask(limits, given, i);
      GivenWithin(limits, given, i);
    }
  }

  lemma DeserializedComplete(limits: Limits, given: Masks)
    requires forall r :: r in Effective(given) ==> IsRoleValid(r)
    ensures Complete(Deserialized(limits, given))
  {
    forall r
      ensures r in Deserialized(limits, given) <==> -1 <= r <= 4
    {
      ClosedFormKeys(limits, given, r);
    }
  }

  /** A good object written to a string and read back is the same object. */
  lemma GoodSurvivesSerialization(limits: Limits, masks: Masks)
    requires LimitsOk(limits) && Good(limits, masks)
    ensures Deserialized(limits, masks) == masks
  {
    ClosedFormOfGood(limits, masks);
    var d := Deserialized(limits, masks);
    forall r | -1 <= r <= 4
      ensures MaskOf(d, r) == MaskOf(masks, r)
    {
      WriteMeaning(limits, masks, OWNER, limits.all, if r < 0 then 0 else r);
    }
    SameMasks(d, masks);
  }

  // ---------------------------------------------------------------- the default grants

  /** What each role is given when nothing else is said. */
  const DEFAULT_GRANTS: Masks := map[
    0 := MaskFor(PERMISSIONS, EVERYBODY),
    1 := MaskFor(PERMISSIONS, []),
    2 := MaskFor(PERMISSIONS, []),
    3 := MaskFor(PERMISSIONS, MODERATORS),
    4 := MaskFor(PERMISSIONS, ["*"]),
    OWNER := MaskFor(PERMISSIONS, ["*"])]

  const EVERYBODY: seq<string> := [
    "playback", "manage-queue", "chat", "configure-room.set-title", "configure-room.set-description",
    "configure-room.set-visibility", "configure-room.set-queue-mode", "configure-room.other"]

  const MODERATORS: seq<string> := [
    "manage-users.promote-trusted-user", "manage-users.demote-trusted-user", "manage-users.kick"]

  lemma DefaultRolesValid()
    ensures forall r :: r in Effective(DEFAULT_GRANTS) ==> IsRoleValid(r)
  {
  }

  /** Whether some of the names selects the permission. */
  predicate SelectedBy(requests: seq<string>, k: nat)
    requires k < |PERMISSIONS|
  {
    exists i :: 0 <= i < |requests| && Selects(requests[i], PERMISSIONS[k].name)
  }

  lemma SelectedInMask(requests: seq<string>, k: nat)
    requires k < |PERMISSIONS|
    ensures k in MaskFor(PERMISSIONS, requests) <==> SelectedBy(requests, k)
  {
    EveryMinRoleIsARole(k);
    ParsedMaskExact(requests, k);
  }

  /** What each of the four lower roles may do by default: what a role's own names select within the
      role's limits, and what the roles below may do. */
  lemma DefaultsExactly(role: Role, k: nat)
    requires 0 <= role <= 3 && k < |PERMISSIONS|
    ensures k in MaskOf(Constructed(LIMITS, DEFAULT_GRANTS), role) <==>
            || (SelectedBy(EVERYBODY, k) && PERMISSIONS[k].minRole == 0)
            || (role == 3 && SelectedBy(MODERATORS, k) && PERMISSIONS[k].minRole <= 3)
  {
    ProgramLimitsOk();
    ConstructedMask(LIMITS, DEFAULT_GRANTS, role);
    EveryMinRoleIsARole(k);
    ValidationMaskExact(0, k);
    ValidationMaskExact(3, k);
    SelectedInMask(EVERYBODY, k);
    SelectedInMask(MODERATORS, k);
    DefaultEntries();
    NothingGivenBetween(LIMITS, DEFAULT_GRANTS, role);
  }

  lemma DefaultEntries()
    ensures MaskOf(DEFAULT_GRANTS, 0) == MaskFor(PERMISSIONS, EVERYBODY)
    ensures MaskOf(DEFAULT_GRANTS, 1) == MaskOf(DEFAULT_GRANTS, 2) == {}
    ensures MaskOf(DEFAULT_GRANTS, 3) == MaskFor(PERMISSIONS, MODERATORS)
  {
    assert MaskFor(PERMISSIONS, []) == {};
  }

  lemma NothingGivenBetween(limits: Limits, given: Masks, role: nat)
    requires role <= 3 && MaskOf(given, 1) == MaskOf(given, 2) == {}
    ensures Given(limits, given, role) ==
            MaskOf(given, 0) * limits.mask(0) + if role == 3 then MaskOf(given, 3) * limits.mask(3) else {}
  {
    if role > 0 {
      NothingGivenBetween(limits, given, role - 1);
    }
  }

  lemma NotForEverybody(k: nat)
    requires k in {20, 21, 24}
    ensures !SelectedBy(EVERYBODY, k)
  {
    var name := PERMISSIONS[k].name;
    assert name[0] == 'm' && name[7] == 'u';
    forall i | 0 <= i < |EVERYBODY|
      ensures !Selects(EVERYBODY[i], name)
    {
      var request := EVERYBODY[i];
      assert request[0] != 'm' || (|request| > 7 && request[7] != 'u');
      assert request != "*" by { assert |request| > 1; }
    }
  }

  lemma ForModerators(k: nat)
    requires k in {20, 21, 24}
    ensures SelectedBy(MODERATORS, k) && PERMISSIONS[k].minRole <= 3
  {
    assert Selects(MODERATORS[0], PERMISSIONS[20].name);
    assert Selects(MODERATORS[1], PERMISSIONS[21].name);
    assert Selects(MODERATORS[2], PERMISSIONS[24].name);
  }

  /** By default moderators kick users and promote and demote trusted ones; those below may not. */
  lemma DefaultsForModerators(role: Role, k: nat)
    requires 0 <= role <= 3 && k in {20, 21, 24}
    ensures k in MaskOf(Constructed(LIMITS, DEFAULT_GRANTS), role) <==> role == 3
  {
    DefaultsExactly(role, k);
    NotForEverybody(k);
    ForModerators(k);
  }

  lemma GoodReconstructs(limits: Limits, masks: Masks)
    requires LimitsOk(limits) && Good(limits, masks)
    ensures forall r :: r in Effective(masks) ==> IsRoleValid(r)
    ensures Constructed(limits, masks) == masks
  {
    RebuiltFromLowerRoles(limits, masks, masks);
  }

  /** The default grants are good, so making an object from them a second time changes nothing. */
  lemma DefaultsAreGood()
    ensures Good(LIMITS, Constructed(LIMITS, DEFAULT_GRANTS))
    ensures forall r :: r in Effective(Constructed(LIMITS, DEFAULT_GRANTS)) ==> IsRoleValid(r)
    ensures Constructed(LIMITS, Constructed(LIMITS, DEFAULT_GRANTS)) == Constructed(LIMITS, DEFAULT_GRANTS)
  {
    ProgramLimitsOk();
    DefaultRolesValid();
    ConstructedGood(LIMITS, DEFAULT_GRANTS);
    GoodReconstructs(LIMITS, Constructed(LIMITS, DEFAULT_GRANTS));
  }

  // ---------------------------------------------------------------- the minimum roles

  /** Who holds a good object's permission has the role that it takes at least. */
  lemma GoodRespectsMinRoles(masks: Masks, role: Role, k: nat)
    requires Good(LIMITS, masks) && 0 <= role <= 4 && k < |PERMISSIONS|
    requires PERMISSIONS[k].bit in MaskOf(masks, role)
    ensures role >= PERMISSIONS[k].minRole
  {
    EveryMinRoleIsARole(k);
    if role <= 3 {
      assert MaskOf(masks, role) <= LIMITS.mask(role);
      ValidationMaskExact(role, k);
    }
  }

  /** However often the grants of the four lower roles are written, and with whatever masks, no role
      ever holds a permission whose minimum role is above it. */
  lemma WritesRespectMinRoles(given: Masks, writes: seq<Write>, role: Role, k: nat)
    requires forall r :: r in Effective(given) ==> IsRoleValid(r)
    requires forall i :: 0 <= i < |writes| ==> 0 <= writes[i].role <= 3
    requires 0 <= role <= 4 && k < |PERMISSIONS|
    ensures PERMISSIONS[k].bit in MaskOf(AfterWrites(LIMITS, Constructed(LIMITS, given), writes), role) ==>
              role >= PERMISSIONS[k].minRole
  {
    ProgramLimitsOk();
    ConstructedGood(LIMITS, given);
    WritesKeepGood(LIMITS, Constructed(LIMITS, given), writes);
    var masks := AfterWrites(LIMITS, Constructed(LIMITS, given), writes);
    if PERMISSIONS[k].bit in MaskOf(masks, role) {
      GoodRespectsMinRoles(masks, role, k);
    }
  }

  /** What a role gets when one of the four lower roles is written: a permission exactly if the role
      below has it, or it was asked for and the role is not below its minimum. */
  lemma WriteGivesExactly(masks: Masks, role: Role, mask: Mask, k: nat)
    requires Good(LIMITS, masks) && 0 <= role <= 3 && k < |PERMISSIONS|
    ensures PERMISSIONS[k].bit in MaskOf(WithRole(LIMITS, masks, role, mask), role) <==>
            || (role > 0 && PERMISSIONS[k].bit in MaskOf(masks, role - 1))
            || (PERMISSIONS[k].bit in mask && role >= PERMISSIONS[k].minRole)
  {
    WriteMeaning(LIMITS, masks, role, mask, role);
    ValidationMaskExact(role, k);
  }

  // ---------------------------------------------------------------- copying grants

  /** Every role that is given anything is a role there is. */
  predicate OnlyRoles(masks: Masks) {
    forall r :: r in Effective(masks) ==> IsRoleValid(r)
  }

  /** Making an object from the masks of another copies it exactly if that one is good. */
  lemma CopiedExactly(limits: Limits, masks: Masks)
    requires LimitsOk(limits) && OnlyRoles(masks)
    ensures Constructed(limits, masks) == masks <==> Good(limits, masks)
  {
    ConstructedGood(limits, masks);
    if Good(limits, masks) {
      GoodReconstructs(limits, masks);
    }
  }

  lemma WriteKeepsOnlyRoles(limits: Limits, masks: Masks, role: Role, mask: Mask)
    requires OnlyRoles(masks) && IsRoleValid(role)
    ensures OnlyRoles(WithRole(limits, masks, role, mask))
  {
    var after := WithRole(limits, masks, role, mask);
    forall r | r in Effective(after)
      ensures IsRoleValid(r)
    {
      assert r == role || 0 <= r <= 4 || r in Effective(masks);
    }
  }

  lemma {:induction false} WritesKeepOnlyRoles(limits: Limits, masks: Masks, writes: seq<Write>)
    requires OnlyRoles(masks)
    requires forall i :: 0 <= i < |writes| ==> IsRoleValid(writes[i].role)
    ensures OnlyRoles(AfterWrites(limits, masks, writes))
    decreases |writes|
  {
    if writes != [] {
      var before, w := writes[..|writes| - 1], writes[|writes| - 1];
      WritesKeepOnlyRoles(limits, masks, before);
      WriteKeepsOnlyRoles(limits, AfterWrites(limits, masks, before), w.role, w.mask);
    }
  }

  // ---------------------------------------------------------------- changing the grants of a room

  /** What of a request for other grants is carried out: only the four lower roles can be given
      other permissions, and a role whose mask would stay as it is is left out. */
  function Changing(masks: Masks, writes: seq<Write>): seq<Write> {
    if writes == [] then []
    else
      var w := writes[|writes| - 1];
      Changing(masks, writes[..|writes| - 1]) +
      if 0 <= w.role <= 3 && !(w.role in masks && masks[w.role] == w.mask) then [w] else []
  }

  lemma {:induction false} ChangingLower(masks: Masks, writes: seq<Write>)
    ensures forall i :: 0 <= i < |Changing(masks, writes)| ==> 0 <= Changing(masks, writes)[i].role <= 3
    decreases |writes|
  {
    if writes != [] {
      ChangingLower(masks, writes[..|writes| - 1]);
    }
  }

  /** The masks after a request for other grants. */
  function Regranted(limits: Limits, masks: Masks, writes: seq<Write>): Masks {
    AfterWrites(limits, masks, Changing(masks, writes))
  }

  /** No request for other grants spoils a good object. */
  lemma RegrantedKeepsGood(limits: Limits, masks: Masks, writes: seq<Write>)
    requires LimitsOk(limits)
    ensures Good(limits, masks) ==> Good(limits, Regranted(limits, masks, writes))
    ensures OnlyRoles(masks) ==> OnlyRoles(Regranted(limits, masks, writes))
  {
    ChangingLower(masks, writes);
    if Good(limits, masks) {
      WritesKeepGood(limits, masks, Changing(masks, writes));
    }
    if OnlyRoles(masks) {
      WritesKeepOnlyRoles(limits, masks, Changing(masks, writes));
    }
  }

  lemma WriteGives(masks: Masks, role: Role, mask: Mask)
    requires Good(LIMITS, masks) && 0 <= role <= 3
    ensures GivesExactly(masks, WithRole(LIMITS, masks, role, mask), role, mask)
  {
    forall k | 0 <= k < |PERMISSIONS|
      ensures PERMISSIONS[k].bit in MaskOf(WithRole(LIMITS, masks, role, mask), role) <==>
              || (role > 0 && PERMISSIONS[k].bit in MaskOf(masks, role - 1))
              || (PERMISSIONS[k].bit in mask && role >= PERMISSIONS[k].minRole)
    {
      WriteGivesExactly(masks, role, mask, k);
    }
  }

  /** A request's writes are carried out one after the other; what a write is compared with is what
      there was before the request. */
  lemma RegrantedOneMore(limits: Limits, masks: Masks, writes: seq<Write>, w: Write)
    ensures Regranted(limits, masks, writes + [w]) ==
            if 0 <= w.role <= 3 && (w.role !in masks || masks[w.role] != w.mask)
            then WithRole(limits, Regranted(limits, masks, writes), w.role, w.mask)
            else Regranted(limits, masks, writes)
  {
    var before := Changing(masks, writes);
    assert (writes + [w])[..|writes|] == writes;
    assert (before + [w])[..|before|] == before;
    assert before + [] == before;
  }

  /** What a request for one role gives it: a permission exactly if the role below has it, or it was
      asked for and the role is not below its minimum. Administrator and owner cannot be changed. */
  lemma RegrantGivesExactly(masks: Masks, w: Write, k: nat)
    requires Good(LIMITS, masks) && k < |PERMISSIONS|
    ensures 0 <= w.role <= 3 ==>
              (PERMISSIONS[k].bit in MaskOf(Regranted(LIMITS, masks, [w]), w.role) <==>
               || (w.role > 0 && PERMISSIONS[k].bit in MaskOf(masks, w.role - 1))
               || (PERMISSIONS[k].bit in w.mask && w.role >= PERMISSIONS[k].minRole))
    ensures !(0 <= w.role <= 3) ==> Regranted(LIMITS, masks, [w]) == masks
  {
    RegrantedOne(LIMITS, masks, w);
    if 0 <= w.role <= 3 {
      WriteGivesExactly(masks, w.role, w.mask, k);
      if w.role in masks && masks[w.role] == w.mask {
        KeptGivesExactly(masks, w, k);
      }
    }
  }

  lemma RegrantedOne(limits: Limits, masks: Masks, w: Write)
    ensures Regranted(limits, masks, [w]) ==
            if 0 <= w.role <= 3 && (w.role !in masks || masks[w.role] != w.mask)
            then WithRole(limits, masks, w.role, w.mask)
            else masks
  {
    RegrantedOneMore(limits, masks, [], w);
    assert [] + [w] == [w] && Regranted(limits, masks, []) == masks;
  }

  lemma KeptGivesExactly(masks: Masks, w: Write, k: nat)
    requires Good(LIMITS, masks) && k < |PERMISSIONS| && 0 <= w.role <= 3
    requires w.role in masks && masks[w.role] == w.mask
    ensures PERMISSIONS[k].bit in MaskOf(masks, w.role) <==>
            || (w.role > 0 && PERMISSIONS[k].bit in MaskOf(masks, w.role - 1))
            || (PERMISSIONS[k].bit in w.mask && w.role >= PERMISSIONS[k].minRole)
  {
    if PERMISSIONS[k].bit in MaskOf(masks, w.role) {
      GoodRespectsMinRoles(masks, w.role, k);
    }
    KeptBit(masks, w, PERMISSIONS[k].bit, PERMISSIONS[k].minRole);
  }

  lemma KeptBit(masks: Masks, w: Write, bit: nat, minRole: Role)
    requires Increasing(masks) && 0 <= w.role <= 3 && w.role in masks && masks[w.role] == w.mask
    requires bit in MaskOf(masks, w.role) ==> w.role >= minRole
    ensures bit in MaskOf(masks, w.role) <==>
            (w.role > 0 && bit in MaskOf(masks, w.role - 1)) || (bit in w.mask && w.role >= minRole)
  {
    if w.role > 0 && bit in MaskOf(masks, w.role - 1) {
      assert MaskOf(masks, w.role - 1) <= MaskOf(masks, w.role);
    }
  }

  // ---------------------------------------------------------------- asking for a permission

  /** A request is granted exactly when the role has every permission the request selects; in
      particular a name that selects nothing is granted to everybody. */
  lemma GrantedMeaning(masks: Masks, role: Role, table: seq<Permission>, request: string)
    ensures MaskFor(table, [request]) <= MaskOf(masks, role) <==>
            forall k :: 0 <= k < |table| && Selects(request, table[k].name) ==> table[k].bit in MaskOf(masks, role)
  {
    assert [request][0] == request;
    forall k | 0 <= k < |table| && Selects(request, table[k].name)
      ensures table[k].bit in MaskFor(table, [request])
    {
      assert Selects([request][0], table[k].name);
    }
  }

  /** What a role may do, every higher role may do, in every good object. */
  lemma {:induction false} GrantsInherited(limits: Limits, masks: Masks, low: Role, high: Role,
                                           table: seq<Permission>, request: string)
    requires Good(limits, masks) && 0 <= low <= high <= 4
    requires MaskFor(table, [request]) <= MaskOf(masks, low)
    ensures MaskFor(table, [request]) <= MaskOf(masks, high)
    decreases high - low
  {
    if low < high {
      GrantsInherited(limits, masks, low + 1, high, table, request);
    }
  }
}
