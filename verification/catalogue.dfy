/** The in-memory permission catalogue of the client's mock service: the role list and the
    permission list, and the three permission edits, each of which re-prunes every role's
    permission names against the permissions that still exist. */
module PermissionCatalogue {

  import opened Seqs
  import opened Entities

  datatype Catalogue = Catalogue(roles: seq<Role>, permissions: seq<Permission>)

  /** The new state of the catalogue together with what the operation returns. */
  datatype Outcome<T> = Outcome(catalogue: Catalogue, result: T)

  /** The fields a caller supplies to `addPermission`; the id is always assigned. */
  datatype Draft = Draft(name: string, description: string)

  /** The fields a caller supplies to `updatePermission`; `None` leaves a field as it is.
      A patched id is ignored. */
  datatype Patch = Patch(id: Option<int>, name: Option<string>, description: Option<string>)

  /** One row of `getAvailablePermissions`. */
  datatype Summary = Summary(name: string, description: string)

  function Names(perms: seq<Permission>): set<string>
  {
    set i | 0 <= i < |perms| :: perms[i].name
  }

  /** Referential consistency: every name in every role's list is the name of an existing
      permission. */
  predicate Consistent(c: Catalogue)
  {
    forall i, j :: 0 <= i < |c.roles| && 0 <= j < |c.roles[i].permissions| ==>
      c.roles[i].permissions[j] in Names(c.permissions)
  }

  /** One role with the names outside `names` dropped. */
  function PruneRole(role: Role, names: set<string>): (r: Role)
    ensures r.id == role.id && r.name == role.name && r.description == role.description
    ensures IsSubsequence(r.permissions, role.permissions)
    ensures forall j :: 0 <= j < |r.permissions| ==> r.permissions[j] in names
    ensures forall j :: 0 <= j < |role.permissions| && role.permissions[j] in names ==>
              role.permissions[j] in r.permissions
  {
    role.(permissions := Filter(role.permissions, n => n in names))
  }

  /** `updateRolesPermissions`: every role keeps, in order, only the names some
      permission still carries. */
  function Prune(roles: seq<Role>, perms: seq<Permission>): (r: seq<Role>)
    ensures |r| == |roles|
    ensures forall i :: 0 <= i < |roles| ==> r[i] == PruneRole(roles[i], Names(perms))
    ensures Consistent(Catalogue(r, perms))
    ensures RolesShrink(roles, r)
  {
    Map(roles, (role: Role) => PruneRole(role, Names(perms)))
  }

  /** Pruning a consistent catalogue changes nothing: it removes exactly the dangling names. */
  lemma PruneConsistentIsIdentity(c: Catalogue)
    requires Consistent(c)
    ensures Prune(c.roles, c.permissions) == c.roles
  {
    var r := Prune(c.roles, c.permissions);
    forall i | 0 <= i < |c.roles|
      ensures r[i] == c.roles[i]
    {
      var names := Names(c.permissions);
      var ps := c.roles[i].permissions;
      forall n | n in ps
        ensures n in names
      {
        var j :| 0 <= j < |ps| && ps[j] == n;
      }
      FilterKeepsAll(ps, n => n in names);
    }
  }

  /** `findIndex(p => p.id === id)`: the first position holding that id. */
  function FindIndex(perms: seq<Permission>, id: int): (k: Option<nat>)
    ensures k.Some? ==> k.value < |perms| && perms[k.value].id == id
    ensures k.Some? ==> forall j :: 0 <= j < k.value ==> perms[j].id != id
    ensures k.None? <==> forall j :: 0 <= j < |perms| ==> perms[j].id != id
  {
    if perms == [] then None
    else if perms[0].id == id then Some(0)
    else match FindIndex(perms[1..], id)
      case None => None
      case Some(k) => Some(k + 1)
  }

  /** `addPermission`: the draft gets the id `now` (the clock reading) and is appended. */
  function AddPermission(c: Catalogue, draft: Draft, now: int): (r: Outcome<Permission>)
    ensures r.result == Permission(now, draft.name, draft.description)
    ensures r.catalogue.permissions == c.permissions + [r.result]
    ensures Consistent(r.catalogue)
    ensures |r.catalogue.roles| == |c.roles|
    ensures r.catalogue.roles == Prune(c.roles, r.catalogue.permissions)
    ensures forall i :: 0 <= i < |c.roles| ==>
              IsSubsequence(r.catalogue.roles[i].permissions, c.roles[i].permissions)
    ensures Consistent(c) ==> r.catalogue.roles == c.roles
  {
    var created := Permission(now, draft.name, draft.description);
    var perms := c.permissions + [created];
    if Consistent(c) then
      AppendKeepsConsistent(c, created);
      PruneConsistentIsIdentity(Catalogue(c.roles, perms));
      Outcome(Catalogue(Prune(c.roles, perms), perms), created)
    else
      Outcome(Catalogue(Prune(c.roles, perms), perms), created)
  }

  /** A new permission takes no name away, so a consistent catalogue stays consistent. */
  lemma AppendKeepsConsistent(c: Catalogue, p: Permission)
    requires Consistent(c)
    ensures Consistent(Catalogue(c.roles, c.permissions + [p]))
  {
    var perms := c.permissions + [p];
    forall n | n in Names(c.permissions)
      ensures n in Names(perms)
    {
      var j :| 0 <= j < |c.permissions| && c.permissions[j].name == n;
      assert perms[j] == c.permissions[j];
    }
  }

  /** The record `{ ...current, ...patch, id }`. */
  function Merge(current: Permission, patch: Patch): (p: Permission)
    ensures p.id == current.id
  {
    Permission(
      current.id,
      if patch.name.Some? then patch.name.value else current.name,
      if patch.description.Some? then patch.description.value else current.description)
  }

  /** `updatePermission`: the first permission with that id is merged with the patch and
      keeps its id; an unknown id returns `null` and changes nothing. */
  function UpdatePermission(c: Catalogue, id: int, patch: Patch): (r: Outcome<Option<Permission>>)
    ensures FindIndex(c.permissions, id).None? ==> r == Outcome(c, None)
    ensures FindIndex(c.permissions, id).Some? ==>
              var k := FindIndex(c.permissions, id).value;
              && r.result.Some?
              && r.result.value.id == id
              && r.result.value.name == (if patch.name.Some? then patch.name.value else c.permissions[k].name)
              && r.result.value.description ==
                   (if patch.description.Some? then patch.description.value else c.permissions[k].description)
              && r.catalogue.permissions == c.permissions[k := r.result.value]
              && r.catalogue.roles == Prune(c.roles, r.catalogue.permissions)
              && Consistent(r.catalogue)
    ensures |r.catalogue.roles| == |c.roles|
  {
    match FindIndex(c.permissions, id)
    case None => Outcome(c, None)
    case Some(k) =>
      var updated := Merge(c.permissions[k], patch);
      var perms := c.permissions[k := updated];
      Outcome(Catalogue(Prune(c.roles, perms), perms), Some(updated))
  }

  /** `deletePermission`: the first permission with that id is spliced out and `true` is
      returned; an unknown id returns `false` and changes nothing. */
  function DeletePermission(c: Catalogue, id: int): (r: Outcome<bool>)
    ensures r.result <==> FindIndex(c.permissions, id).Some?
    ensures !r.result ==> r.catalogue == c
    ensures r.result ==>
              var k := FindIndex(c.permissions, id).value;
              && r.catalogue.permissions == c.permissions[..k] + c.permissions[k + 1..]
              && r.catalogue.roles == Prune(c.roles, r.catalogue.permissions)
              && Consistent(r.catalogue)
    ensures |r.catalogue.roles| == |c.roles|
  {
    match FindIndex(c.permissions, id)
    case None => Outcome(c, false)
    case Some(k) =>
      var perms := c.permissions[..k] + c.permissions[k + 1..];
      Outcome(Catalogue(Prune(c.roles, perms), perms), true)
  }

  /** Deleting the only permission with some name takes that name out of every role. */
  lemma DeletedNameLeavesEveryRole(c: Catalogue, id: int)
    requires FindIndex(c.permissions, id).Some?
    requires var k := FindIndex(c.permissions, id).value;
             forall j :: 0 <= j < |c.permissions| && j != k ==> c.permissions[j].name != c.permissions[k].name
    ensures var k := FindIndex(c.permissions, id).value;
            var r := DeletePermission(c, id).catalogue;
            forall i :: 0 <= i < |r.roles| ==> c.permissions[k].name !in r.roles[i].permissions
  {
    var k := FindIndex(c.permissions, id).value;
    var gone := c.permissions[k].name;
    var perms := c.permissions[..k] + c.permissions[k + 1..];
    assert perms == DeletePermission(c, id).catalogue.permissions;
    forall j | 0 <= j < |perms|
      ensures perms[j].name != gone
    {
      if j < k {
        assert perms[j] == c.permissions[j];
      } else {
        assert perms[j] == c.permissions[j + 1];
      }
    }
    assert gone !in Names(perms);
  }

  /** The three edits, as one step of the catalogue. */
  datatype Edit = Add(draft: Draft, now: int) | Update(id: int, patch: Patch) | Delete(id: int)

  function Apply(c: Catalogue, e: Edit): Catalogue
  {
    match e
    case Add(draft, now) => AddPermission(c, draft, now).catalogue
    case Update(id, patch) => UpdatePermission(c, id, patch).catalogue
    case Delete(id) => DeletePermission(c, id).catalogue
  }

  function ApplyAll(c: Catalogue, edits: seq<Edit>): Catalogue
    decreases |edits|
  {
    if edits == [] then c else ApplyAll(Apply(c, edits[0]), edits[1..])
  }

  /** Referential consistency is an invariant of every run of edits from a consistent
      catalogue. */
  lemma {:induction false} EditsPreserveConsistency(c: Catalogue, edits: seq<Edit>)
    requires Consistent(c)
    ensures Consistent(ApplyAll(c, edits))
    decreases |edits|
  {
    if edits != [] {
      var next := Apply(c, edits[0]);
      assert Consistent(next);
      EditsPreserveConsistency(next, edits[1..]);
    }
  }

  /** The role list keeps its length and ids, and each role's names only shrink, in order. */
  predicate RolesShrink(before: seq<Role>, after: seq<Role>)
  {
    |after| == |before|
    && forall i :: 0 <= i < |before| ==>
         after[i].id == before[i].id && IsSubsequence(after[i].permissions, before[i].permissions)
  }

  lemma RolesShrinkReflexive(roles: seq<Role>)
    ensures RolesShrink(roles, roles)
  {
    forall i | 0 <= i < |roles|
      ensures IsSubsequence(roles[i].permissions, roles[i].permissions)
    {
      SubsequenceReflexive(roles[i].permissions);
    }
  }

  lemma RolesShrinkTransitive(a: seq<Role>, b: seq<Role>, c: seq<Role>)
    requires RolesShrink(a, b) && RolesShrink(b, c)
    ensures RolesShrink(a, c)
  {
    forall i | 0 <= i < |a|
      ensures IsSubsequence(c[i].permissions, a[i].permissions)
    {
      SubsequenceTransitive(c[i].permissions, b[i].permissions, a[i].permissions);
    }
  }

  /** No edit ever adds a name to a role: the role list only shrinks. */
  lemma EditShrinksRoles(c: Catalogue, e: Edit)
    ensures RolesShrink(c.roles, Apply(c, e).roles)
  {
    var r := Apply(c, e);
    if r.roles == c.roles {
      RolesShrinkReflexive(c.roles);
    }
  }

  /** Over any run of edits, each role keeps its id and its names only shrink, in order. */
  lemma {:induction false} EditsOnlyRemoveRoleNames(c: Catalogue, edits: seq<Edit>)
    ensures RolesShrink(c.roles, ApplyAll(c, edits).roles)
    decreases |edits|
  {
    if edits == [] {
      RolesShrinkReflexive(c.roles);
    } else {
      var next := Apply(c, edits[0]);
      EditShrinksRoles(c, edits[0]);
      EditsOnlyRemoveRoleNames(next, edits[1..]);
      RolesShrinkTransitive(c.roles, next.roles, ApplyAll(next, edits[1..]).roles);
    }
  }

  /** `getAvailableRoles`: the role names, in role order. */
  function AvailableRoles(c: Catalogue): (names: seq<string>)
    ensures |names| == |c.roles|
    ensures forall i :: 0 <= i < |c.roles| ==> names[i] == c.roles[i].name
  {
    Map(c.roles, (r: Role) => r.name)
  }

  /** `getAvailablePermissions`: name and description of every permission, in order. */
  function AvailablePermissions(c: Catalogue): (rows: seq<Summary>)
    ensures |rows| == |c.permissions|
    ensures forall i :: 0 <= i < |c.permissions| ==>
              rows[i] == Summary(c.permissions[i].name, c.permissions[i].description)
  {
    Map(c.permissions, (p: Permission) => Summary(p.name, p.description))
  }

  /** The catalogue the mock service starts from. */
  const INITIAL: Catalogue := Catalogue(
    [ Role(1, "Admin", "Full system access",
           ["users_read", "users_write", "roles_read", "roles_write", "permissions_read", "permissions_write"]),
      Role(2, "Editor", "Content management access", ["users_read", "roles_read", "permissions_read"]) ],
    [ Permission(1, "users_read", "View users"),
      Permission(2, "users_write", "Modify users"),
      Permission(3, "roles_read", "View roles"),
      Permission(4, "roles_write", "Modify roles"),
      Permission(5, "permissions_read", "View permissions"),
      Permission(6, "permissions_write", "Modify permissions") ])

  /** The shipped catalogue is referentially consistent before any edit. */
  lemma InitialIsConsistent()
    ensures Consistent(INITIAL)
  {
    var names := Names(INITIAL.permissions);
    assert INITIAL.permissions[0].name in names;
    assert INITIAL.permissions[1].name in names;
    assert INITIAL.permissions[2].name in names;
    assert INITIAL.permissions[3].name in names;
    assert INITIAL.permissions[4].name in names;
    assert INITIAL.permissions[5].name in names;
  }
}
