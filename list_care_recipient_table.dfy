/**
 * The stand-alone care-recipient table: loads the first page once, merges
 * it into the rows it holds, and inserts a row for each submitted form.
 */
module ListCareRecipientTable {
  import opened Common
  import opened PageCache
  import opened CareRows
  import opened AddCareRecipientButton

  /** Each row is stored under its own id. */
  ghost predicate KeyedById(m: map<string, TableRow>) {
    forall k :: k in m ==> m[k].id == k
  }

  /** The row a submit inserts: from the form, with its name not trimmed. */
  function SubmittedRow(form: FormData, age: string -> int): (row: TableRow)
    requires Complete(form)
    ensures row.id == form.addId.GetOr("")
    ensures row.name == form.fields["firstName"] + " " + form.fields["lastName"]
  {
    var f := form.fields;
    TableRow(
      form.addId.GetOr(""),
      f["firstName"] + " " + f["lastName"],
      age(f["birthDate"]),
      f["gender"],
      f["phone"],
      f["email"],
      f["address"],
      Some(f["emergencyContactName"]),
      Some(f["emergencyContactPhone"]),
      f["allergies"],
      f["medicalHistory"],
      f["medications"])
  }

  /** The merge `{ ...prev, ...map }`: every old row stays unless the page has its id. */
  function Merge(prev: map<string, TableRow>, page: map<string, TableRow>): (r: map<string, TableRow>)
    ensures r.Keys == prev.Keys + page.Keys
    ensures forall k :: k in page ==> r[k] == page[k]
    ensures forall k :: k in prev && k !in page ==> r[k] == prev[k]
    ensures KeyedById(prev) && KeyedById(page) ==> KeyedById(r)
  {
    prev + page
  }

  /**
   * A submitted row is stored under the server's id but carries the form's
   * client id: as soon as the two differ, the table is no longer keyed by id.
   */
  lemma SubmitBreaksKeying(prev: map<string, TableRow>, form: FormData, createdId: Option<string>, age: string -> int)
    requires Complete(form) && form.addId.Some? && createdId.GetOr("") != form.addId.value
    ensures !KeyedById(prev[createdId.GetOr("") := SubmittedRow(form, age)])
  {
    var key := createdId.GetOr("");
    assert prev[key := SubmittedRow(form, age)][key].id != key;
  }

  /**
   * A form whose first name is empty gets a row name with a leading space,
   * where a loaded row with the same names shows the last name alone.
   */
  lemma SubmittedNameNotTrimmed(form: FormData, age: string -> int)
    requires Complete(form) && form.fields["firstName"] == ""
    requires var last := form.fields["lastName"];
             last != "" && !IsJsWhitespace(last[0]) && !IsJsWhitespace(last[|last| - 1])
    ensures SubmittedRow(form, age).name == " " + form.fields["lastName"]
    ensures DisplayName(Some(""), Some(form.fields["lastName"])) == form.fields["lastName"]
  {
    var last := form.fields["lastName"];
    var s := "" + " " + last;
    assert s[0] == ' ' && s[1..] == last;
    assert TrimStart(s) == last;
    assert TrimEnd(last) == last;
  }

  class ListCareRecipientTable {
    var tableList: map<string, TableRow>
    var expandedRows: set<string>

    constructor()
      ensures tableList == map[] && expandedRows == {}
    {
      tableList := map[];
      expandedRows := {};
    }

    /**
     * The load effect: with a client that is not loading, the items of the
     * fetched page (`null` entries and items without id skipped) are merged in.
     */
    method Load(hasClient: bool, loading: bool, items: Option<seq<Option<ApiCareRecipient>>>, age: string -> int)
      modifies this
      ensures expandedRows == old(expandedRows)
      ensures !hasClient || loading ==> tableList == old(tableList)
      ensures hasClient && !loading ==>
                tableList == Merge(old(tableList), RowMap(Present(items.GetOr([])), age, true))
      ensures old(KeyedById(tableList)) ==> KeyedById(tableList)
    {
      if !hasClient || loading {
        return;
      }
      var page := RowMap(Present(items.GetOr([])), age, true);
      tableList := Merge(tableList, page);
    }

    /** `toggleExpanded(id)` */
    method ToggleExpanded(id: string)
      modifies this
      ensures tableList == old(tableList) && expandedRows == Toggle(old(expandedRows), id)
    {
      expandedRows := Toggle(expandedRows, id);
    }

    /**
     * `handleSubmit`: nothing without a client, while loading, or without a
     * form `addId`. `created` is the awaited mutation: `None` when it rejects,
     * which abandons the handler before the table is touched, otherwise the
     * id it returned, if any. On a settled mutation exactly one row is set,
     * under that id (`''` when it returned none).
     */
    method HandleSubmit(hasClient: bool, loading: bool, form: FormData, created: Option<Option<string>>,
                        age: string -> int)
      requires Complete(form)
      modifies this
      ensures expandedRows == old(expandedRows)
      ensures !hasClient || loading || form.addId.None? || created.None? ==> tableList == old(tableList)
      ensures hasClient && !loading && form.addId.Some? && created.Some? ==>
                var createdId := created.value;
                && tableList.Keys == old(tableList).Keys + {createdId.GetOr("")}
                && tableList[createdId.GetOr("")] == SubmittedRow(form, age)
                && forall k :: k in old(tableList) && k != createdId.GetOr("") ==> tableList[k] == old(tableList)[k]
    {
      if !hasClient || loading {
        return;
      }
      if form.addId.None? {
        return;
      }
      match created {
        case None =>
          return;
        case Some(createdId) =>
          tableList := tableList[createdId.GetOr("") := SubmittedRow(form, age)];
      }
    }
  }
}
