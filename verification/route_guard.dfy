/** The decision a protected route makes before rendering its page: send an anonymous
    visitor to the login page (remembering where they were going), send a user lacking a
    required permission to the dashboard, keep a signed-in user away from the login page,
    and otherwise render. */
module RouteGuard {

  import opened Seqs

  datatype Decision = Redirect(to: string, from: Option<string>) | Render

  const LOGIN: string := "/login"
  const DASHBOARD: string := "/dashboard"

  /** `required.every(p => user.permissions?.includes(p))`; `None` is a user whose
      `permissions` is undefined, for whom every `includes` is undefined and so falsy. */
  predicate HasAll(userPermissions: Option<seq<string>>, required: seq<string>)
  {
    forall i :: 0 <= i < |required| ==> userPermissions.Some? && required[i] in userPermissions.value
  }

  function Guard(authenticated: bool, userPermissions: Option<seq<string>>, required: seq<string>, pathname: string): (d: Decision)
    ensures !authenticated ==> d == Redirect(LOGIN, Some(pathname))
    ensures authenticated && !HasAll(userPermissions, required) ==> d == Redirect(DASHBOARD, None)
    ensures authenticated && HasAll(userPermissions, required) ==>
              d == (if pathname == LOGIN then Redirect(DASHBOARD, None) else Render)
    ensures d == Render <==> authenticated && HasAll(userPermissions, required) && pathname != LOGIN
  {
    if !authenticated then Redirect(LOGIN, Some(pathname))
    else if |required| > 0 && !HasAll(userPermissions, required) then Redirect(DASHBOARD, None)
    else if pathname == LOGIN then Redirect(DASHBOARD, None)
    else Render
  }

  /** A route with no required permissions renders for every signed-in user away from the
      login page, whatever their permissions. */
  lemma NoRequirementSkipsTheCheck(userPermissions: Option<seq<string>>, pathname: string)
    requires pathname != LOGIN
    ensures Guard(true, userPermissions, [], pathname) == Render
  {
  }

  /** A user whose permission list is undefined is turned away from every route that
      requires anything. */
  lemma UndefinedPermissionsFailEveryRequirement(required: seq<string>, pathname: string)
    requires required != []
    ensures Guard(true, None, required, pathname) == Redirect(DASHBOARD, None)
  {
    assert required[0] in required;
  }

  /** Granting more permissions never turns a render into a redirect, and requiring fewer
      never does either. */
  lemma MonotoneInPermissions(granted: seq<string>, more: seq<string>, required: seq<string>, fewer: seq<string>, pathname: string)
    requires forall p :: p in granted ==> p in more
    requires forall p :: p in fewer ==> p in required
    requires Guard(true, Some(granted), required, pathname) == Render
    ensures Guard(true, Some(more), required, pathname) == Render
    ensures Guard(true, Some(granted), fewer, pathname) == Render
  {
    assert HasAll(Some(granted), required);
    forall i | 0 <= i < |fewer|
      ensures fewer[i] in granted
    {
      assert fewer[i] in fewer;
      var j :| 0 <= j < |required| && required[j] == fewer[i];
    }
  }
}
