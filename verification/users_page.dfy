/** The user management page: its user list and selected ids, and how each handler
    rewrites them once its API call has resolved or thrown. */
module UsersPage {

  import opened Seqs
  import opened Entities
  import opened ListPage
  import J = Json
  import UserForm
  import DataTable

  datatype State = State(users: seq<User>, selected: seq<int>)

  function IdOf(u: User): int
  {
    u.id
  }

  /** The record `handleAddUser` sends: the dialog's fields with the status forced to
      "Active" and `createdAt` stamped with the clock reading `now`. */
  datatype NewUser = NewUser(name: string, email: string, role: string, status: string, createdAt: int)

  function AddRequest(form: UserForm.Data, now: int): (u: NewUser)
    ensures u.name == form.name && u.email == form.email && u.role == form.role
    ensures u.status == ACTIVE
    ensures u.createdAt == now
  {
    NewUser(form.name, form.email, form.role, ACTIVE, now)
  }

  /** Whatever status the dialog had, the request asks for an active user. */
  lemma AddRequestIgnoresDialogStatus(form: UserForm.Data, status: string, now: int)
    ensures AddRequest(form.(status := status), now) == AddRequest(form, now)
  {
  }

  /** `handleAddUser`: the saved user is appended; a failed call changes nothing. */
  function AddUser(s: State, outcome: ApiResult<User>): (r: State)
    ensures outcome.Ok? ==> r.users == s.users + [outcome.value] && r.selected == s.selected
    ensures outcome.Failed? ==> r == s
  {
    match outcome
    case Ok(saved) => s.(users := s.users + [saved])
    case Failed(_) => s
  }

  /** `handleEditUser`: entries with the saved user's id are replaced by it. */
  function EditUser(s: State, outcome: ApiResult<User>): (r: State)
    ensures outcome.Failed? ==> r == s
    ensures outcome.Ok? ==> r.users == ReplaceById(s.users, IdOf, outcome.value) && r.selected == s.selected
    ensures Ids(r.users, IdOf) == Ids(s.users, IdOf)
  {
    match outcome
    case Ok(saved) => s.(users := ReplaceById(s.users, IdOf, saved))
    case Failed(_) => s
  }

  /** `handleDeleteUser`: the user and its id in the selection both go. */
  function DeleteUser(s: State, id: int, outcome: ApiResult<J.Json>): (r: State)
    ensures outcome.Failed? ==> r == s
    ensures outcome.Ok? ==> r.users == RemoveId(s.users, IdOf, id)
    ensures outcome.Ok? ==> id !in r.selected && IsSubsequence(r.selected, s.selected)
    ensures outcome.Ok? ==> forall i :: 0 <= i < |s.selected| && s.selected[i] != id ==> s.selected[i] in r.selected
  {
    match outcome
    case Ok(_) => State(RemoveId(s.users, IdOf, id), Filter(s.selected, (x: int) => x != id))
    case Failed(_) => s
  }

  /** The ids `handleDeleteSelected` sends, or none when nothing is selected: an empty
      selection returns before any call. */
  function BulkRequest(s: State): (ids: Option<seq<int>>)
    ensures ids.None? <==> s.selected == []
    ensures ids.Some? ==> ids.value == s.selected
  {
    if s.selected == [] then None else Some(s.selected)
  }

  /** `handleDeleteSelected`: with a selection and a truthy `success` in the reply, the
      selected users go and the selection is cleared; otherwise nothing changes. */
  function DeleteSelected(s: State, outcome: ApiResult<J.Json>): (r: State)
    ensures s.selected == [] ==> r == s
    ensures s.selected != [] && outcome.Ok? && Succeeded(outcome.value) ==>
              r == State(RemoveIds(s.users, IdOf, s.selected), [])
    ensures !(outcome.Ok? && Succeeded(outcome.value)) ==> r == s
  {
    if s.selected == [] then s
    else if outcome.Ok? && Succeeded(outcome.value) then State(RemoveIds(s.users, IdOf, s.selected), [])
    else s
  }

  /** `handleSelectAll`: ticking selects every user id in list order; unticking clears. */
  function SelectAll(s: State, checked: bool): (r: State)
    ensures r.users == s.users
    ensures checked ==> r.selected == Ids(s.users, IdOf)
    ensures !checked ==> r.selected == []
  {
    s.(selected := if checked then Ids(s.users, IdOf) else [])
  }

  /** `handleSelectOne`: a selected id is deselected, an unselected one appended. */
  function SelectOne(s: State, id: int): (r: State)
    ensures r.users == s.users
    ensures id in r.selected <==> id !in s.selected
    ensures forall i :: 0 <= i < |s.selected| && s.selected[i] != id ==> s.selected[i] in r.selected
    ensures forall i :: 0 <= i < |r.selected| ==> r.selected[i] in s.selected || r.selected[i] == id
    ensures id !in s.selected ==> r.selected == s.selected + [id]
    ensures id in s.selected ==> r.selected == Without(s.selected, id)
  {
    s.(selected := Toggle(s.selected, id))
  }

  /** Ticking the header and handing the selection to the table ticks the header box. */
  lemma SelectAllTicksHeader(s: State, rows: seq<DataTable.Row>)
    requires |rows| == |s.users|
    ensures var ids := SelectAll(s, true).selected;
            DataTable.HeaderChecked(Some(Map(ids, (n: int) => J.JNum(n))), rows)
  {
  }

  /** The page's actions, each with the outcome of its API call. */
  datatype Action =
    | Add(saved: ApiResult<User>)
    | Edit(saved: ApiResult<User>)
    | Remove(id: int, reply: ApiResult<J.Json>)
    | RemoveSelected(reply: ApiResult<J.Json>)
    | TickAll(checked: bool)
    | Tick(id: int)

  function Step(s: State, a: Action): State
  {
    match a
    case Add(saved) => AddUser(s, saved)
    case Edit(saved) => EditUser(s, saved)
    case Remove(id, reply) => DeleteUser(s, id, reply)
    case RemoveSelected(reply) => DeleteSelected(s, reply)
    case TickAll(checked) => SelectAll(s, checked)
    case Tick(id) => SelectOne(s, id)
  }

  /** Every selected id names a listed user, so long as rows are only ticked for listed
      users: no action leaves a stale id behind. */
  lemma StepKeepsSelectionListed(s: State, a: Action)
    requires SelectionListed(s.users, IdOf, s.selected)
    requires a.Tick? ==> a.id in Ids(s.users, IdOf)
    ensures SelectionListed(Step(s, a).users, IdOf, Step(s, a).selected)
  {
    var r := Step(s, a);
    match a
    case Add(saved) =>
      if saved.Ok? {
        forall i | 0 <= i < |s.selected|
          ensures s.selected[i] in Ids(r.users, IdOf)
        {
          var j :| 0 <= j < |s.users| && IdOf(s.users[j]) == s.selected[i];
          assert r.users[j] == s.users[j];
        }
      }
    case Edit(saved) =>
    case Remove(id, reply) =>
      if reply.Ok? {
        forall i | 0 <= i < |r.selected|
          ensures r.selected[i] in Ids(r.users, IdOf)
        {
          var x := r.selected[i];
          assert x in s.selected && x != id;
          var k :| 0 <= k < |s.selected| && s.selected[k] == x;
          var j :| 0 <= j < |s.users| && IdOf(s.users[j]) == x;
          assert s.users[j] in r.users;
          var m :| 0 <= m < |r.users| && r.users[m] == s.users[j];
          assert Ids(r.users, IdOf)[m] == x;
        }
      }
    case RemoveSelected(reply) =>
    case TickAll(checked) =>
    case Tick(id) =>
  }
}
