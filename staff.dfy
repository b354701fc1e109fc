/** The staff repository: `Staff.addStaff` and `listStaff`. */
module Staff {
  import opened Common
  import Cursor
  import opened Table
  import opened Records
  import opened Listing

  /** The attributes of `StaffType`, in the order `listStaff` copies them. */
  const Fields: seq<string> := ["id", "name", "staffId", "address", "qualification", "createdAt", "updatedAt"]

  function FieldNames(): (r: set<string>)
    ensures "id" in r && "name" in r && "createdAt" in r && "updatedAt" in r
  {
    set f | f in Fields
  }

  /**
   * `staff_${Date.now()}_${Math.random().toString(36).slice(2, 11)}`;
   * `random36` is the base-36 text of the random number.
   */
  function NewId(epochMs: nat, random36: string): (id: string)
    ensures StartsWith(id, "staff_")
    ensures |id| <= 6 + |Decimal(epochMs)| + 1 + 9
  {
    RecordId("staff_", epochMs, Slice(random36, 2, 11))
  }

  /** Ids made at different milliseconds differ, whatever the random numbers. */
  lemma NewIdsDiffer(m: nat, a: string, n: nat, b: string)
    requires m != n
    ensures NewId(m, a) != NewId(n, b)
  {
    if NewId(m, a) == NewId(n, b) {
      RecordIdInjective("staff_", m, Slice(a, 2, 11), n, Slice(b, 2, 11));
    }
  }

  /** `addStaff`: stamps the data with a new id and the clock reading, writes it, and returns it. */
  method AddStaff(t: Table, data: Item, now: string, epochMs: nat, random36: string)
    returns (record: Item)
    requires t.Valid()
    modifies t
    ensures record.Keys == data.Keys + Generated
    ensures record["id"] == NewId(epochMs, random36)
    ensures record["createdAt"] == now && record["updatedAt"] == now
    ensures forall k :: k in data && k !in Generated ==> record[k] == data[k]
    ensures t.Valid() && t.rows == PutRows(old(t.rows), record)
    ensures record in t.rows
  {
    record := Add(t, data, "staff_", now, epochMs, Slice(random36, 2, 11));
  }

  /**
   * `listStaff`: a page of at most `limit ?? 20` records of exactly the 7
   * fields; a non-empty token that does not decode is an error nothing catches.
   */
  function ListStaff(rows: seq<Item>, p: ListParams): (r: Result<Page, ListError>)
    requires HasKeys(rows)
    ensures r.Ok? ==> |r.value.items| <= p.limit.GetOr(DefaultLimit)
    ensures r.Ok? ==> forall i :: 0 <= i < |r.value.items| ==> r.value.items[i].Keys == FieldNames()
    ensures Truthy(p.nextToken) ==>
              (r == Err(MalformedToken) <==> Cursor.DecodeToken(p.nextToken.value).None?)
    ensures !Truthy(p.nextToken) && p.limit.GetOr(DefaultLimit) < 1 ==> r == Err(ScanFailed(ValidationException))
    ensures !Truthy(p.nextToken) && p.limit.GetOr(DefaultLimit) >= 1 ==> r.Ok?
  {
    List(Tokens, rows, p, Fields)
  }

  /** Each returned token decodes to the key of the last record of its page. */
  lemma NextTokenDecodes(rows: seq<Item>, p: ListParams)
    requires HasKeys(rows)
    requires ListStaff(rows, p).Ok? && ListStaff(rows, p).value.nextToken.Some?
    ensures ResumesAfterLast(Tokens, ListStaff(rows, p).value)
  {
    assert Fields[0] == "id";
    TokensRoundTrip();
    TokenResumesAfterLast(Tokens, rows, p, Fields, ListStaff(rows, p).value);
  }

  /** Following the tokens from the first page returns every staff member once, in scan order. */
  lemma ListingReturnsAll(rows: seq<Item>, limit: int)
    requires WellKeyed(rows) && limit >= 1
    ensures Walk(Tokens, rows, limit, None, Fields, |rows| + 1) == Some(ProjectAll(rows, Fields))
  {
    WalkVisitsEveryItem(rows, limit, Fields);
  }
}
