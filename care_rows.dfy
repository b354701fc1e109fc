/**
 * The rows of the care-recipient tables: the `TableList` entries built from
 * listed records and the reduce that keys them by id.
 */
module CareRows {
  import opened Common

  /** A listed care recipient as the query returns it; any field may be null. */
  datatype ApiCareRecipient = ApiCareRecipient(
    id: Option<string>,
    firstName: Option<string>,
    lastName: Option<string>,
    birthDate: Option<string>,
    gender: Option<string>,
    phone: Option<string>,
    email: Option<string>,
    address: Option<string>,
    emergencyContactName: Option<string>,
    emergencyContactPhone: Option<string>,
    allergies: Option<string>,
    medicalHistory: Option<string>,
    medications: Option<string>)

  /**
   * A `TableList` entry. The emergency-contact fields are `None` where the
   * building code leaves them out of the object.
   */
  datatype TableRow = TableRow(
    id: string,
    name: string,
    age: int,
    gender: string,
    phone: string,
    email: string,
    address: string,
    emergencyContactName: Option<string>,
    emergencyContactPhone: Option<string>,
    allergies: string,
    medicalHistory: string,
    medications: string)

  /** `` `${first ?? ''} ${last ?? ''}`.trim() `` */
  function DisplayName(first: Option<string>, last: Option<string>): (name: string)
    ensures name == [] || (!IsJsWhitespace(name[0]) && !IsJsWhitespace(name[|name| - 1]))
    ensures |name| <= |first.GetOr("")| + 1 + |last.GetOr("")|
  {
    Trim(first.GetOr("") + " " + last.GetOr(""))
  }

  /** The name of a recipient whose names have no surrounding blanks is the two names and a space. */
  lemma DisplayNameOfTrimmed(first: string, last: string)
    requires first != [] && last != []
    requires !IsJsWhitespace(first[0]) && !IsJsWhitespace(last[|last| - 1])
    ensures DisplayName(Some(first), Some(last)) == first + " " + last
  {
    var s := first + " " + last;
    assert s[0] == first[0];
    assert TrimStart(s) == s;
    assert s[|s| - 1] == last[|last| - 1];
  }

  /** The reduce's entry for one item with an id; `age` is `calculateAge`. */
  function RowOf(it: ApiCareRecipient, age: string -> int, withEmergency: bool): (row: TableRow)
    requires Truthy(it.id)
  {
    TableRow(
      it.id.value,
      DisplayName(it.firstName, it.lastName),
      if Truthy(it.birthDate) then age(it.birthDate.value) else 0,
      it.gender.GetOr(""),
      it.phone.GetOr(""),
      it.email.GetOr(""),
      it.address.GetOr(""),
      if withEmergency then Some(it.emergencyContactName.GetOr("")) else None,
      if withEmergency then Some(it.emergencyContactPhone.GetOr("")) else None,
      it.allergies.GetOr(""),
      it.medicalHistory.GetOr(""),
      it.medications.GetOr(""))
  }

  /** The ids the reduce keeps: those of the items with a non-empty id. */
  function Ids(items: seq<ApiCareRecipient>): set<string> {
    set i | 0 <= i < |items| && Truthy(items[i].id) :: items[i].id.value
  }

  /** The position of the last item whose id is `id`. */
  function LastWith(items: seq<ApiCareRecipient>, id: string): (r: Option<nat>)
    ensures r.Some? ==> r.value < |items| && items[r.value].id == Some(id)
    ensures r.Some? ==> forall j :: r.value < j < |items| ==> items[j].id != Some(id)
    ensures r.None? ==> forall j :: 0 <= j < |items| ==> items[j].id != Some(id)
  {
    if items == [] then None
    else if items[|items| - 1].id == Some(id) then Some(|items| - 1)
    else LastWith(items[..|items| - 1], id)
  }

  /**
   * The reduce that builds the table: items without a non-empty id are
   * skipped, and an id seen again overwrites the earlier row, so each id
   * keeps the row of the last item that has it.
   */
  function RowMap(items: seq<ApiCareRecipient>, age: string -> int, withEmergency: bool): (m: map<string, TableRow>)
    ensures m.Keys == Ids(items)
    ensures forall k :: k in m ==> m[k].id == k
    ensures forall k :: k in m ==>
              LastWith(items, k).Some? && m[k] == RowOf(items[LastWith(items, k).value], age, withEmergency)
  {
    if items == [] then map[]
    else
      var init := items[..|items| - 1];
      var m := RowMap(init, age, withEmergency);
      var it := items[|items| - 1];
      assert forall i :: 0 <= i < |init| ==> init[i] == items[i];
      assert Ids(items) == Ids(init) + (if Truthy(it.id) then {it.id.value} else {});
      if Truthy(it.id) then m[it.id.value := RowOf(it, age, withEmergency)] else m
  }
}
