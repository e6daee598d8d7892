/** The permission management page: its permission list and selected ids, and how each
    handler rewrites them once its API calls have resolved or thrown. Unlike the other two
    pages, a single delete leaves the selection alone and the bulk delete has no guard
    for an empty selection. */
module PermissionsPage {

  import opened Seqs
  import opened Entities
  import opened ListPage
  import J = Json
  import DataTable

  datatype State = State(permissions: seq<Permission>, selected: seq<int>)

  function IdOf(p: Permission): int
  {
    p.id
  }

  /** `handleAddPermission`: the saved permission is appended. */
  function AddPermission(s: State, outcome: ApiResult<Permission>): (r: State)
    ensures outcome.Ok? ==> r.permissions == s.permissions + [outcome.value] && r.selected == s.selected
    ensures outcome.Failed? ==> r == s
  {
    match outcome
    case Ok(saved) => s.(permissions := s.permissions + [saved])
    case Failed(_) => s
  }

  /** `handleEditPermission`: entries with the saved permission's id are replaced by it. */
  function EditPermission(s: State, outcome: ApiResult<Permission>): (r: State)
    ensures outcome.Failed? ==> r == s
    ensures outcome.Ok? ==> r.permissions == ReplaceById(s.permissions, IdOf, outcome.value) && r.selected == s.selected
    ensures Ids(r.permissions, IdOf) == Ids(s.permissions, IdOf)
  {
    match outcome
    case Ok(saved) => s.(permissions := ReplaceById(s.permissions, IdOf, saved))
    case Failed(_) => s
  }

  /** `handleDeletePermission`: the permission goes; the selection is not touched. */
  function DeletePermission(s: State, id: int, outcome: ApiResult<J.Json>): (r: State)
    ensures outcome.Failed? ==> r == s
    ensures outcome.Ok? ==> r.permissions == RemoveId(s.permissions, IdOf, id)
    ensures r.selected == s.selected
  {
    match outcome
    case Ok(_) => s.(permissions := RemoveId(s.permissions, IdOf, id))
    case Failed(_) => s
  }

  /** Deleting a selected permission by its row button leaves its id selected, though no
      listed permission carries it any more. */
  lemma SingleDeleteLeavesStaleSelection(s: State, id: int, reply: J.Json)
    requires id in s.selected
    ensures var r := DeletePermission(s, id, Ok(reply));
            id in r.selected && id !in Ids(r.permissions, IdOf)
  {
  }

  /** `handleDeleteSelected`: one delete call per selected id, awaited together. When all
      resolve, the selected permissions go and the selection is cleared; when any throws,
      the list is left as it was. */
  function DeleteSelected(s: State, outcome: ApiResult<seq<J.Json>>): (r: State)
    ensures outcome.Ok? ==> r == State(RemoveIds(s.permissions, IdOf, s.selected), [])
    ensures outcome.Failed? ==> r == s
  {
    match outcome
    case Ok(_) => State(RemoveIds(s.permissions, IdOf, s.selected), [])
    case Failed(_) => s
  }

  /** With nothing selected the bulk delete still runs, and leaves the list as it was. */
  lemma EmptyBulkDeleteKeepsList(s: State, replies: seq<J.Json>)
    requires s.selected == []
    ensures DeleteSelected(s, Ok(replies)) == s
  {
  }

  /** `handleSelectAll`: ticking selects every permission id in list order. */
  function SelectAll(s: State, checked: bool): (r: State)
    ensures r.permissions == s.permissions
    ensures checked ==> r.selected == Ids(s.permissions, IdOf)
    ensures !checked ==> r.selected == []
  {
    s.(selected := if checked then Ids(s.permissions, IdOf) else [])
  }

  /** The inline row toggle: a selected id is deselected, an unselected one appended. */
  function SelectOne(s: State, id: int): (r: State)
    ensures r.permissions == s.permissions
    ensures id in r.selected <==> id !in s.selected
    ensures forall i :: 0 <= i < |s.selected| && s.selected[i] != id ==> s.selected[i] in r.selected
    ensures forall i :: 0 <= i < |r.selected| ==> r.selected[i] in s.selected || r.selected[i] == id
    ensures id !in s.selected ==> r.selected == s.selected + [id]
    ensures id in s.selected ==> r.selected == Without(s.selected, id)
  {
    s.(selected := Toggle(s.selected, id))
  }

  /** The page hands its selection to the table under a name the table does not read, so
      the table sees no selection: no row and not the header is ever ticked. */
  lemma TableSeesNoSelection(rows: seq<DataTable.Row>)
    ensures forall i :: 0 <= i < |rows| ==> !DataTable.RowChecked(None, rows[i])
    ensures !DataTable.HeaderChecked(None, rows)
  {
  }

  /** The page renders its table without the `selectable` prop. */
  const SELECTABLE: bool := false

  /** The page's events, each with the outcome of its API call. A click on a selection box
      or on the bulk-delete button only happens when the page draws that control. */
  datatype Action =
    | Add(saved: ApiResult<Permission>)
    | Edit(saved: ApiResult<Permission>)
    | Remove(id: int, reply: ApiResult<J.Json>)
    | RemoveSelected(replies: ApiResult<seq<J.Json>>)
    | TickAll(checked: bool)
    | Tick(id: int)

  /** Whether the bulk-delete button is on the page: only for a non-empty selection. */
  predicate BulkButtonShown(s: State)
  {
    |s.selected| > 0
  }

  /** One event. Selection clicks reach their handlers only through the table's boxes, and
      the bulk delete only through its button. */
  function Step(s: State, rows: seq<DataTable.Row>, a: Action): State
  {
    var boxes := DataTable.Checkboxes(SELECTABLE, None, rows, rows).Some?;
    match a
    case Add(saved) => AddPermission(s, saved)
    case Edit(saved) => EditPermission(s, saved)
    case Remove(id, reply) => DeletePermission(s, id, reply)
    case RemoveSelected(replies) => if BulkButtonShown(s) then DeleteSelected(s, replies) else s
    case TickAll(checked) => if boxes then SelectAll(s, checked) else s
    case Tick(id) => if boxes then SelectOne(s, id) else s
  }

  function Run(s: State, rows: seq<DataTable.Row>, actions: seq<Action>): State
    decreases |actions|
  {
    if actions == [] then s else Run(Step(s, rows, actions[0]), rows, actions[1..])
  }

  /** The selection handlers are wired but unreachable: from the empty selection the page
      starts with, no run of events selects anything, so the bulk-delete button never
      appears and the list changes only through the add, edit and row-delete handlers. */
  lemma {:induction false} SelectionStaysEmpty(s: State, rows: seq<DataTable.Row>, actions: seq<Action>)
    requires s.selected == []
    ensures Run(s, rows, actions).selected == []
    ensures !BulkButtonShown(Run(s, rows, actions))
    decreases |actions|
  {
    if actions != [] {
      var r := Step(s, rows, actions[0]);
      assert r.selected == [];
      SelectionStaysEmpty(r, rows, actions[1..]);
    }
  }
}
