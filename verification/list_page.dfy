/** The list updates the three management pages share: the outcome of an API call, and
    the ways a page rewrites its list and its selection of ids after one. */
module ListPage {

  import opened Seqs
  import J = Json

  /** An awaited API call: it resolved with a value, or it threw. */
  datatype ApiResult<T> = Ok(value: T) | Failed(message: string)

  /** `result.success` is truthy for the reply of a bulk delete. */
  predicate Succeeded(reply: J.Json)
  {
    reply.JObj? && "success" in reply.fields && J.Truthy(Some(reply.fields["success"]))
  }

  /** `items.map(x => x.id)`. */
  function Ids<T>(items: seq<T>, idOf: T -> int): (ids: seq<int>)
    ensures |ids| == |items|
    ensures forall i :: 0 <= i < |items| ==> ids[i] == idOf(items[i])
  {
    Map(items, idOf)
  }

  /** `items.map(x => x.id === saved.id ? saved : x)`: every entry carrying the saved
      record's id is replaced by it; the ids of the list do not change. */
  function ReplaceById<T>(items: seq<T>, idOf: T -> int, saved: T): (r: seq<T>)
    ensures |r| == |items|
    ensures Ids(r, idOf) == Ids(items, idOf)
    ensures forall i :: 0 <= i < |items| && idOf(items[i]) == idOf(saved) ==> r[i] == saved
    ensures forall i :: 0 <= i < |items| && idOf(items[i]) != idOf(saved) ==> r[i] == items[i]
  {
    Map(items, (x: T) => if idOf(x) == idOf(saved) then saved else x)
  }

  /** Saving the same record twice is saving it once. */
  lemma ReplaceTwice<T>(items: seq<T>, idOf: T -> int, saved: T)
    ensures ReplaceById(ReplaceById(items, idOf, saved), idOf, saved) == ReplaceById(items, idOf, saved)
  {
  }

  /** `items.filter(x => x.id !== id)`. */
  function RemoveId<T(==)>(items: seq<T>, idOf: T -> int, id: int): (r: seq<T>)
    ensures forall i :: 0 <= i < |r| ==> idOf(r[i]) != id
    ensures forall i :: 0 <= i < |items| && idOf(items[i]) != id ==> items[i] in r
    ensures IsSubsequence(r, items)
  {
    Filter(items, (x: T) => idOf(x) != id)
  }

  /** `items.filter(x => !ids.includes(x.id))`. */
  function RemoveIds<T(==)>(items: seq<T>, idOf: T -> int, ids: seq<int>): (r: seq<T>)
    ensures forall i :: 0 <= i < |r| ==> idOf(r[i]) !in ids
    ensures forall i :: 0 <= i < |items| && idOf(items[i]) !in ids ==> items[i] in r
    ensures IsSubsequence(r, items)
    ensures ids == [] ==> r == items
  {
    var r := Filter(items, (x: T) => idOf(x) !in ids);
    assert ids == [] ==> r == items by {
      if ids == [] {
        FilterKeepsAll(items, (x: T) => idOf(x) !in ids);
      }
    }
    r
  }

  /** Deleting the same ids again removes nothing more. */
  lemma RemoveIdsTwice<T>(items: seq<T>, idOf: T -> int, ids: seq<int>)
    ensures RemoveIds(RemoveIds(items, idOf, ids), idOf, ids) == RemoveIds(items, idOf, ids)
  {
    FilterIdempotent(items, (x: T) => idOf(x) !in ids);
  }

  /** Every selected id belongs to a listed entry. */
  predicate SelectionListed<T>(items: seq<T>, idOf: T -> int, selected: seq<int>)
  {
    forall i :: 0 <= i < |selected| ==> selected[i] in Ids(items, idOf)
  }
}
