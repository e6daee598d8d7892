/** The application-wide counters the shared context keeps next to the loaded lists. */
module AppStats {

  import opened Entities

  datatype Stats = Stats(totalUsers: nat, activeRoles: nat, totalPermissions: nat, activeSessions: nat)

  /** The counters before anything has loaded. */
  const INITIAL: Stats := Stats(0, 0, 0, 0)

  /** `updateStats`: list lengths, and the users whose status is exactly "Active". */
  function UpdateStats(users: seq<User>, roles: seq<Role>, permissions: seq<Permission>): (st: Stats)
    ensures st.totalUsers == |users| && st.activeRoles == |roles| && st.totalPermissions == |permissions|
    ensures st.activeSessions == ActiveCount(users)
    ensures st.activeSessions <= st.totalUsers
    ensures st.activeSessions == st.totalUsers <==> forall i :: 0 <= i < |users| ==> users[i].status == ACTIVE
  {
    Stats(|users|, |roles|, |permissions|, ActiveCount(users))
  }
}
