/** The request validator of `server/middleware.js` for `POST /users`, `POST /roles` and
    `POST /permissions`: required fields, the permission-name convention and
    permission-name uniqueness. Every other request passes through untouched. `server.js`
    never mounts it (it installs only json-server's defaults, its own routes and the
    router), so this is what the validator would answer if it were installed. */
module RequestValidation {

  import opened Seqs
  import J = Json
  import Text

  /** A parsed JSON request body: field name to value; an absent key is `undefined`. */
  type Body = map<string, J.Json>

  /** `res.status(400).json({ error })` without calling `next`, or `next()` with the
      (possibly completed) body. */
  datatype Verdict = Reject(status: int, message: string) | Pass(body: Body)

  /** A permission already in the store, as the uniqueness check reads it. */
  datatype StoredPermission = StoredPermission(id: int, name: string)

  const USER_FIELDS_REQUIRED: string := "Name, email and role are required"
  const ROLE_FIELDS_REQUIRED: string := "Name and permissions are required"
  const PERMISSION_FIELDS_REQUIRED: string := "Name and description are required"
  const PERMISSION_NAME_FORMAT: string := "Permission name must be lowercase with underscores only"
  const PERMISSION_NAME_UNIQUE: string := "Permission name must be unique"
  const DEFAULT_STATUS: string := "Active"

  function Get(body: Body, key: string): Option<J.Json>
  {
    if key in body then Some(body[key]) else None
  }

  predicate Present(body: Body, key: string)
  {
    J.Truthy(Get(body, key))
  }

  /** Some stored permission already has exactly this name (`p.name === name`). */
  predicate NameTaken(existing: seq<StoredPermission>, name: J.Json)
  {
    exists i :: 0 <= i < |existing| && name == J.JStr(existing[i].name)
  }

  /** The body a valid `POST /users` is forwarded with: `status` defaults to "Active"
      when falsy, and `createdAt` is stamped with the clock reading `now`. */
  function CompleteUser(body: Body, now: int): (b: Body)
    ensures b.Keys == body.Keys + {"status", "createdAt"}
    ensures b["createdAt"] == J.JNum(now)
    ensures Present(body, "status") ==> b["status"] == body["status"]
    ensures !Present(body, "status") ==> b["status"] == J.JStr(DEFAULT_STATUS)
    ensures forall k :: k in body && k != "status" && k != "createdAt" ==> b[k] == body[k]
  {
    var status := if Present(body, "status") then body["status"] else J.JStr(DEFAULT_STATUS);
    body["status" := status]["createdAt" := J.JNum(now)]
  }

  /** The validator. `existing` is the store's permission list, which the uniqueness
      check reads; `now` is the clock reading stamped on new users. */
  function Validate(verb: string, path: string, body: Body, existing: seq<StoredPermission>, now: int): (v: Verdict)
    // Anything but a POST to one of the three collections passes through unchanged.
    ensures verb != "POST" ==> v == Pass(body)
    ensures path != "/users" && path != "/roles" && path != "/permissions" ==> v == Pass(body)
    // Users: all three of name, email and role must be truthy.
    ensures verb == "POST" && path == "/users" ==>
              (v.Reject? <==> !(Present(body, "name") && Present(body, "email") && Present(body, "role")))
    ensures verb == "POST" && path == "/users" && v.Reject? ==> v == Reject(400, USER_FIELDS_REQUIRED)
    ensures verb == "POST" && path == "/users" && v.Pass? ==> v.body == CompleteUser(body, now)
    // Roles: name and permissions must be truthy (an empty array is).
    ensures verb == "POST" && path == "/roles" ==>
              (v.Reject? <==> !(Present(body, "name") && Present(body, "permissions")))
    ensures verb == "POST" && path == "/roles" ==>
              (if v.Reject? then v == Reject(400, ROLE_FIELDS_REQUIRED) else v == Pass(body))
    // Permissions: missing fields first, then the name format, then uniqueness.
    ensures verb == "POST" && path == "/permissions" ==>
              (v.Pass? <==> && Present(body, "name") && Present(body, "description")
                            && Text.IsPermissionName(J.JsString(body["name"]))
                            && !NameTaken(existing, body["name"]))
    ensures verb == "POST" && path == "/permissions" && v.Pass? ==> v.body == body
    ensures verb == "POST" && path == "/permissions" && !(Present(body, "name") && Present(body, "description")) ==>
              v == Reject(400, PERMISSION_FIELDS_REQUIRED)
    ensures verb == "POST" && path == "/permissions" && Present(body, "name") && Present(body, "description")
            && !Text.IsPermissionName(J.JsString(body["name"])) ==>
              v == Reject(400, PERMISSION_NAME_FORMAT)
    ensures verb == "POST" && path == "/permissions" && Present(body, "name") && Present(body, "description")
            && Text.IsPermissionName(J.JsString(body["name"])) && NameTaken(existing, body["name"]) ==>
              v == Reject(400, PERMISSION_NAME_UNIQUE)
  {
    if verb != "POST" then Pass(body)
    else if path == "/users" then
      if !Present(body, "name") || !Present(body, "email") || !Present(body, "role") then
        Reject(400, USER_FIELDS_REQUIRED)
      else Pass(CompleteUser(body, now))
    else if path == "/roles" then
      if !Present(body, "name") || !Present(body, "permissions") then Reject(400, ROLE_FIELDS_REQUIRED)
      else Pass(body)
    else if path == "/permissions" then
      if !Present(body, "name") || !Present(body, "description") then Reject(400, PERMISSION_FIELDS_REQUIRED)
      else if !Text.IsPermissionName(J.JsString(body["name"])) then Reject(400, PERMISSION_NAME_FORMAT)
      else if NameTaken(existing, body["name"]) then Reject(400, PERMISSION_NAME_UNIQUE)
      else Pass(body)
    else Pass(body)
  }

  /** A role may be created with an empty permission list: `[]` is truthy. */
  lemma EmptyPermissionListIsAccepted(name: string, existing: seq<StoredPermission>, now: int)
    requires name != []
    ensures Validate("POST", "/roles", map["name" := J.JStr(name), "permissions" := J.JArr([])], existing, now).Pass?
  {
  }

  /** A validated user keeps a truthy status it was sent and gets "Active" otherwise. */
  lemma UserStatusDefault(body: Body, existing: seq<StoredPermission>, now: int)
    requires Present(body, "name") && Present(body, "email") && Present(body, "role")
    ensures var v := Validate("POST", "/users", body, existing, now);
            && v.Pass?
            && v.body["status"] == (if Present(body, "status") then body["status"] else J.JStr(DEFAULT_STATUS))
  {
  }

  /** The name-format rule on its own: only non-empty runs of `a`..`z` and `_` pass, and
      every stored name is compared as written (`users_read` passes, `Users` and `a-b`
      do not). */
  lemma PermissionNameExamples()
    ensures Text.IsPermissionName("users_read")
    ensures !Text.IsPermissionName("Users")
    ensures !Text.IsPermissionName("a-b")
    ensures !Text.IsPermissionName("")
  {
    assert "Users"[0] == 'U';
    assert "a-b"[1] == '-';
  }
}
