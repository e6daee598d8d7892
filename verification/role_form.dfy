/** The add/edit role dialog: name, description and the ticked permission names, the
    validation run on submit, the field update, and the permission checkbox toggle. */
module RoleForm {

  import opened Seqs
  import opened FormErrors
  import Text

  datatype Field = Name | Description | Permissions

  datatype Data = Data(name: string, description: string, permissions: seq<string>)

  const INITIAL: Data := Data("", "", [])

  const NAME_REQUIRED: string := "Role name is required"
  const DESCRIPTION_REQUIRED: string := "Description is required"
  const PERMISSIONS_REQUIRED: string := "At least one permission is required"

  /** The errors object built from the outcome of each field's test. */
  function Collect(nameBlank: bool, descriptionBlank: bool, permissionsEmpty: bool): (errors: Errors<Field>)
    ensures Name in errors <==> nameBlank
    ensures Description in errors <==> descriptionBlank
    ensures Permissions in errors <==> permissionsEmpty
    ensures Name in errors ==> errors[Name] == NAME_REQUIRED
    ensures Description in errors ==> errors[Description] == DESCRIPTION_REQUIRED
    ensures Permissions in errors ==> errors[Permissions] == PERMISSIONS_REQUIRED
  {
    var e1: Errors<Field> := if nameBlank then map[Name := NAME_REQUIRED] else map[];
    var e2 := if descriptionBlank then e1[Description := DESCRIPTION_REQUIRED] else e1;
    if permissionsEmpty then e2[Permissions := PERMISSIONS_REQUIRED] else e2
  }

  /** `validateForm`: a blank name, a blank description and an empty permission list are
      each reported with their own message, and nothing else. */
  function Validate(d: Data): (errors: Errors<Field>)
    ensures Name in errors <==> Text.Trim(d.name) == []
    ensures Description in errors <==> Text.Trim(d.description) == []
    ensures Permissions in errors <==> d.permissions == []
    ensures Name in errors ==> errors[Name] == NAME_REQUIRED
    ensures Description in errors ==> errors[Description] == DESCRIPTION_REQUIRED
    ensures Permissions in errors ==> errors[Permissions] == PERMISSIONS_REQUIRED
  {
    Collect(Text.Trim(d.name) == [], Text.Trim(d.description) == [], |d.permissions| == 0)
  }

  predicate Valid(d: Data)
  {
    Text.Trim(d.name) != [] && Text.Trim(d.description) != [] && d.permissions != []
  }

  /** `handleSubmit`: the data reaches the page only when validation finds nothing. */
  function Submit(d: Data): (s: Submission<Field, Data>)
    ensures s.errors == Validate(d)
    ensures s.submitted.Some? <==> Valid(d)
    ensures s.submitted.Some? ==> s.submitted.value == d
  {
    var errors := Validate(d);
    assert NoErrors(errors) <==> Valid(d) by {
      if !Valid(d) {
        assert Name in errors || Description in errors || Permissions in errors;
      }
    }
    Submission(errors, if NoErrors(errors) then Some(d) else None)
  }

  /** What an input event carries: a text value, or the array a multi-select yields. */
  datatype InputValue = Text(text: string) | List(items: seq<string>)

  datatype Edit = Edit(data: Data, errors: Errors<Field>)

  /** `handleChange`: the permissions field takes an array as it is and wraps a single
      value in a one-element list; the text fields take the typed text; only the edited
      field's error is blanked. */
  function HandleChange(d: Data, errors: Errors<Field>, field: Field, value: InputValue): (r: Edit)
    requires field != Permissions ==> value.Text?
    ensures field == Name ==> r.data == d.(name := value.text)
    ensures field == Description ==> r.data == d.(description := value.text)
    ensures field == Permissions && value.List? ==> r.data == d.(permissions := value.items)
    ensures field == Permissions && value.Text? ==> r.data == d.(permissions := [value.text])
    ensures r.errors == ClearError(errors, field)
  {
    var data := match field
      case Name => d.(name := value.text)
      case Description => d.(description := value.text)
      case Permissions => d.(permissions := if value.List? then value.items else [value.text]);
    Edit(data, ClearError(errors, field))
  }

  /** `handlePermissionChange`: a ticked name is unticked (every copy removed), an
      unticked one is appended, and the permissions error is blanked. */
  function TogglePermission(d: Data, errors: Errors<Field>, permission: string): (r: Edit)
    ensures r.data.name == d.name && r.data.description == d.description
    ensures permission in r.data.permissions <==> permission !in d.permissions
    ensures forall i :: 0 <= i < |d.permissions| && d.permissions[i] != permission ==>
              d.permissions[i] in r.data.permissions
    ensures forall i :: 0 <= i < |r.data.permissions| ==>
              r.data.permissions[i] in d.permissions || r.data.permissions[i] == permission
    ensures permission !in d.permissions ==> r.data.permissions == d.permissions + [permission]
    ensures permission in d.permissions ==>
              r.data.permissions == Without(d.permissions, permission)
    ensures r.errors == ClearError(errors, Permissions)
  {
    Edit(d.(permissions := Toggle(d.permissions, permission)), ClearError(errors, Permissions))
  }

  /** Ticking a name and unticking it again gives back the list the form had. */
  lemma ToggleTwiceRestores(d: Data, errors: Errors<Field>, permission: string)
    requires permission !in d.permissions
    ensures var once := TogglePermission(d, errors, permission);
            TogglePermission(once.data, once.errors, permission).data == d
  {
    Seqs.ToggleTwiceRestores(d.permissions, permission);
  }

  /** Toggling never introduces a duplicate name. */
  lemma ToggleKeepsNamesDistinct(d: Data, errors: Errors<Field>, permission: string)
    requires Distinct(d.permissions)
    ensures Distinct(TogglePermission(d, errors, permission).data.permissions)
  {
    ToggleKeepsDistinct(d.permissions, permission);
  }
}
