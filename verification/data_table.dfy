/** The shared list table: the search box's row filter and the two checkbox flags. A row
    is the record as the page holds it, a map from field name to JSON value. */
module DataTable {

  import opened Seqs
  import J = Json
  import Text

  type Row = map<string, J.Json>

  /** `String(value).toLowerCase().includes(searchTerm.toLowerCase())`. */
  predicate FieldMatches(value: J.Json, term: string)
  {
    Text.Includes(Text.ToLower(J.JsString(value)), Text.ToLower(term))
  }

  /** `Object.values(row).some(...)`: some field of the row matches. */
  predicate RowMatches(row: Row, term: string)
  {
    exists k :: k in row && FieldMatches(row[k], term)
  }

  /** `filteredData`: with search on, the rows some field of which contains the term,
      ignoring case, in their original order; with search off, all rows. */
  function Visible(data: seq<Row>, searchable: bool, term: string): (r: seq<Row>)
    ensures !searchable ==> r == data
    ensures IsSubsequence(r, data)
    ensures searchable ==> forall i :: 0 <= i < |r| ==> RowMatches(r[i], term)
    ensures searchable ==> forall i :: 0 <= i < |data| ==> (data[i] in r <==> RowMatches(data[i], term))
  {
    if searchable then Filter(data, (row: Row) => RowMatches(row, term))
    else SubsequenceReflexive(data); data
  }

  /** Lower-casing a term first does not change which fields it matches. */
  lemma FieldMatchesIgnoresTermCase(value: J.Json, term: string)
    ensures FieldMatches(value, term) == FieldMatches(value, Text.ToLower(term))
  {
    Text.ToLowerIdempotent(term);
  }

  /** The filter does not depend on the letter case of the search term. */
  lemma VisibleIgnoresTermCase(data: seq<Row>, term: string)
    ensures Visible(data, true, term) == Visible(data, true, Text.ToLower(term))
  {
    forall row: Row
      ensures RowMatches(row, term) == RowMatches(row, Text.ToLower(term))
    {
      forall k | k in row
        ensures FieldMatches(row[k], term) == FieldMatches(row[k], Text.ToLower(term))
      {
        FieldMatchesIgnoresTermCase(row[k], term);
      }
    }
    FilterCongruent(data, (row: Row) => RowMatches(row, term), (row: Row) => RowMatches(row, Text.ToLower(term)));
  }

  /** With an empty search term every row that has at least one field is shown, and a row
      with no fields at all is hidden: `some` over no values is false. */
  lemma EmptyTermKeepsRowsWithFields(data: seq<Row>)
    ensures forall i :: 0 <= i < |data| ==> (data[i] in Visible(data, true, "") <==> |data[i]| > 0)
  {
    forall i | 0 <= i < |data|
      ensures RowMatches(data[i], "") <==> |data[i]| > 0
    {
      if |data[i]| > 0 {
        var k :| k in data[i];
        Text.IncludesEmpty(Text.ToLower(J.JsString(data[i][k])));
        assert FieldMatches(data[i][k], "");
      } else {
        assert data[i].Keys == {};
      }
    }
  }

  /** The header checkbox: `selected?.length === data.length`, a comparison of counts
      against the whole data set, whatever the filter shows; no selection leaves it
      unticked. */
  predicate HeaderChecked(selected: Option<seq<J.Json>>, data: seq<Row>)
  {
    selected.Some? && |selected.value| == |data|
  }

  /** A row checkbox: `selected?.includes(row.id)`. */
  predicate RowChecked(selected: Option<seq<J.Json>>, row: Row)
  {
    selected.Some? && "id" in row && row["id"] in selected.value
  }

  /** The selection boxes the table draws. */
  datatype Boxes = Boxes(header: bool, rows: seq<bool>)

  /** With `selectable` falsy the table draws no checkbox at all, so neither `onSelectAll`
      nor `onSelectOne` can fire; otherwise it draws the header box and one box per shown
      row, each ticked as the two predicates above say. */
  function Checkboxes(selectable: bool, selected: Option<seq<J.Json>>, data: seq<Row>, shown: seq<Row>): (b: Option<Boxes>)
    ensures b.None? <==> !selectable
    ensures b.Some? ==> b.value.header == HeaderChecked(selected, data)
    ensures b.Some? ==> |b.value.rows| == |shown|
    ensures b.Some? ==> forall i :: 0 <= i < |shown| ==> b.value.rows[i] == RowChecked(selected, shown[i])
  {
    if selectable then
      Some(Boxes(HeaderChecked(selected, data), seq(|shown|, i requires 0 <= i < |shown| => RowChecked(selected, shown[i]))))
    else None
  }

  /** The header only counts: while a search hides a row, selecting exactly the ids of the
      visible rows ticks every visible row but not the header. */
  lemma HeaderIgnoresTheFilter(data: seq<Row>, term: string)
    requires forall i :: 0 <= i < |data| ==> "id" in data[i]
    requires |Visible(data, true, term)| < |data|
    ensures var shown := Visible(data, true, term);
            var selected := Some(seq(|shown|, i requires 0 <= i < |shown| => shown[i]["id"]));
            && (forall i :: 0 <= i < |shown| ==> RowChecked(selected, shown[i]))
            && !HeaderChecked(selected, data)
  {
    var shown := Visible(data, true, term);
    var ids := seq(|shown|, i requires 0 <= i < |shown| => shown[i]["id"]);
    forall i | 0 <= i < |shown|
      ensures RowChecked(Some(ids), shown[i])
    {
      assert ids[i] == shown[i]["id"];
    }
  }
}
