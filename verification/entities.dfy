/** The three entities the client manages, as the pages hold them after loading them from
    the server. */
module Entities {

  import opened Seqs

  datatype User = User(id: int, name: string, email: string, role: string, status: string, createdAt: Option<int>)

  datatype Role = Role(id: int, name: string, description: string, permissions: seq<string>)

  datatype Permission = Permission(id: int, name: string, description: string)

  /** The status string that counts a user as an active session. */
  const ACTIVE: string := "Active"

  predicate IsActive(u: User)
  {
    u.status == ACTIVE
  }

  /** `users.filter(u => u.status === 'Active').length`. */
  function ActiveCount(users: seq<User>): (n: nat)
    ensures n <= |users|
    ensures n == |Filter(users, IsActive)|
    ensures n == |users| <==> forall i :: 0 <= i < |users| ==> IsActive(users[i])
  {
    CountIsFilterLength(users, IsActive);
    AllActiveIffFull(users);
    Count(users, IsActive)
  }

  lemma {:induction false} AllActiveIffFull(users: seq<User>)
    ensures Count(users, IsActive) == |users| <==> forall i :: 0 <= i < |users| ==> IsActive(users[i])
    decreases users
  {
    if users != [] {
      AllActiveIffFull(users[1..]);
      assert forall i :: 1 <= i < |users| ==> users[i] == users[1..][i - 1];
    }
  }

  function UserIds(users: seq<User>): (ids: seq<int>)
    ensures |ids| == |users| && forall i :: 0 <= i < |users| ==> ids[i] == users[i].id
  {
    Map(users, (u: User) => u.id)
  }

  function RoleIds(roles: seq<Role>): (ids: seq<int>)
    ensures |ids| == |roles| && forall i :: 0 <= i < |roles| ==> ids[i] == roles[i].id
  {
    Map(roles, (r: Role) => r.id)
  }

  function PermissionIds(perms: seq<Permission>): (ids: seq<int>)
    ensures |ids| == |perms| && forall i :: 0 <= i < |perms| ==> ids[i] == perms[i].id
  {
    Map(perms, (p: Permission) => p.id)
  }
}
