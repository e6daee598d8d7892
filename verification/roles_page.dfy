/** The role management page: its role list and selected ids, and how each handler
    rewrites them once its API call has resolved or thrown. The table's delete action
    asks for confirmation first. */
module RolesPage {

  import opened Seqs
  import opened Entities
  import opened ListPage
  import J = Json

  datatype State = State(roles: seq<Role>, selected: seq<int>)

  function IdOf(r: Role): int
  {
    r.id
  }

  /** `handleAddRole`: the created role is appended; a failed call changes nothing. */
  function AddRole(s: State, outcome: ApiResult<Role>): (r: State)
    ensures outcome.Ok? ==> r.roles == s.roles + [outcome.value] && r.selected == s.selected
    ensures outcome.Failed? ==> r == s
  {
    match outcome
    case Ok(created) => s.(roles := s.roles + [created])
    case Failed(_) => s
  }

  /** `handleEditRole`: entries with the saved role's id are replaced by it. */
  function EditRole(s: State, outcome: ApiResult<Role>): (r: State)
    ensures outcome.Failed? ==> r == s
    ensures outcome.Ok? ==> r.roles == ReplaceById(s.roles, IdOf, outcome.value) && r.selected == s.selected
    ensures Ids(r.roles, IdOf) == Ids(s.roles, IdOf)
  {
    match outcome
    case Ok(saved) => s.(roles := ReplaceById(s.roles, IdOf, saved))
    case Failed(_) => s
  }

  /** `handleDeleteRole`: the role and its id in the selection both go. Nothing on the page
      calls this handler; the table's delete action is `handleDelete` (`ConfirmedDelete`),
      which makes the same update after a confirmation, so the page has one delete path. */
  function DeleteRole(s: State, id: int, outcome: ApiResult<J.Json>): (r: State)
    ensures outcome.Failed? ==> r == s
    ensures outcome.Ok? ==> r.roles == RemoveId(s.roles, IdOf, id)
    ensures outcome.Ok? ==> id !in r.selected && IsSubsequence(r.selected, s.selected)
    ensures outcome.Ok? ==> forall i :: 0 <= i < |s.selected| && s.selected[i] != id ==> s.selected[i] in r.selected
  {
    match outcome
    case Ok(_) => State(RemoveId(s.roles, IdOf, id), Filter(s.selected, (x: int) => x != id))
    case Failed(_) => s
  }

  /** `handleDelete`, the table's delete action: without confirmation nothing happens and
      no call is made; with it, the same update as `handleDeleteRole`. */
  function ConfirmedDelete(s: State, id: int, confirmed: bool, outcome: ApiResult<J.Json>): (r: State)
    ensures !confirmed ==> r == s
    ensures confirmed ==> r == DeleteRole(s, id, outcome)
    ensures confirmed && outcome.Ok? ==> forall i :: 0 <= i < |r.roles| ==> r.roles[i].id != id
  {
    if confirmed then DeleteRole(s, id, outcome) else s
  }

  /** `handleDeleteSelected`: an empty selection returns before any call; otherwise a reply
      with a truthy `success` removes the selected roles and clears the selection, and
      anything else changes nothing. */
  function DeleteSelected(s: State, outcome: ApiResult<J.Json>): (r: State)
    ensures s.selected == [] ==> r == s
    ensures s.selected != [] && outcome.Ok? && Succeeded(outcome.value) ==>
              r == State(RemoveIds(s.roles, IdOf, s.selected), [])
    ensures !(outcome.Ok? && Succeeded(outcome.value)) ==> r == s
  {
    if s.selected == [] then s
    else if outcome.Ok? && Succeeded(outcome.value) then State(RemoveIds(s.roles, IdOf, s.selected), [])
    else s
  }

  /** After a successful bulk delete no selected role is listed and every other role keeps
      its place. */
  lemma BulkDeleteRemovesExactlySelected(s: State, reply: J.Json)
    requires s.selected != [] && Succeeded(reply)
    ensures var r := DeleteSelected(s, Ok(reply));
            && r.selected == []
            && (forall i :: 0 <= i < |r.roles| ==> r.roles[i].id !in s.selected)
            && (forall i :: 0 <= i < |s.roles| && s.roles[i].id !in s.selected ==> s.roles[i] in r.roles)
            && IsSubsequence(r.roles, s.roles)
  {
  }

  /** `handleSelectAll`: ticking selects every role id in list order; unticking clears. */
  function SelectAll(s: State, checked: bool): (r: State)
    ensures r.roles == s.roles
    ensures checked ==> r.selected == Ids(s.roles, IdOf)
    ensures !checked ==> r.selected == []
  {
    s.(selected := if checked then Ids(s.roles, IdOf) else [])
  }

  /** `handleSelectOne`: a selected id is deselected, an unselected one appended. */
  function SelectOne(s: State, id: int): (r: State)
    ensures r.roles == s.roles
    ensures id in r.selected <==> id !in s.selected
    ensures forall i :: 0 <= i < |s.selected| && s.selected[i] != id ==> s.selected[i] in r.selected
    ensures forall i :: 0 <= i < |r.selected| ==> r.selected[i] in s.selected || r.selected[i] == id
    ensures id !in s.selected ==> r.selected == s.selected + [id]
    ensures id in s.selected ==> r.selected == Without(s.selected, id)
  {
    s.(selected := Toggle(s.selected, id))
  }

  /** Ticking an unticked row twice gives back the selection as it was. */
  lemma SelectOneTwice(s: State, id: int)
    requires id !in s.selected
    ensures SelectOne(SelectOne(s, id), id) == s
  {
    ToggleTwiceRestores(s.selected, id);
  }
}
