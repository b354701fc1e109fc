/** The care-recipient repository: `CareRecipient.addCareRecipient`, `getCareRecipients` and `listCareRecipients`. */
module CareRecipients {
  import opened Common
  import JsonKey
  import Cursor
  import opened Table
  import opened Records
  import opened Listing

  /** The attributes of `CareRecipientType`, in the order the list operations copy them. */
  const Fields: seq<string> := [
    "id", "lastName", "firstName", "lastNameKana", "firstNameKana", "birthDate",
    "gender", "bloodType", "phone", "email", "address", "emergencyContactName",
    "emergencyContactRelation", "emergencyContactPhone", "allergies",
    "medicalHistory", "medications", "notes", "createdAt", "updatedAt"
  ]

  /** The set of the 20 field names. */
  function FieldNames(): (r: set<string>)
    ensures "id" in r && "createdAt" in r && "updatedAt" in r
  {
    set f | f in Fields
  }

  /**
   * `care_${Date.now()}_${Math.random().toString(36).substr(2, 9)}`;
   * `random36` is the base-36 text of the random number ("0." and its digits).
   */
  function NewId(epochMs: nat, random36: string): (id: string)
    ensures StartsWith(id, "care_")
    ensures |id| <= 5 + |Decimal(epochMs)| + 1 + 9
  {
    RecordId("care_", epochMs, Substr(random36, 2, 9))
  }

  /** Ids made at different milliseconds differ, whatever the random numbers. */
  lemma NewIdsDiffer(m: nat, a: string, n: nat, b: string)
    requires m != n
    ensures NewId(m, a) != NewId(n, b)
  {
    if NewId(m, a) == NewId(n, b) {
      RecordIdInjective("care_", m, Substr(a, 2, 9), n, Substr(b, 2, 9));
    }
  }

  /**
   * `addCareRecipient`: stamps the data with a new id and the clock reading,
   * writes it, and returns the very record it wrote.
   */
  method AddCareRecipient(t: Table, data: Item, now: string, epochMs: nat, random36: string)
    returns (record: Item)
    requires t.Valid()
    modifies t
    ensures record.Keys == data.Keys + Generated
    ensures record["id"] == NewId(epochMs, random36)
    ensures record["createdAt"] == now && record["updatedAt"] == now
    ensures forall k :: k in data && k !in Generated ==> record[k] == data[k]
    ensures t.Valid() && t.rows == PutRows(old(t.rows), record)
    ensures record in t.rows
  {
    record := Add(t, data, "care_", now, epochMs, Substr(random36, 2, 9));
  }

  /** The request `getCareRecipients` sends: `Limit: 100` and no start key. */
  const LegacyRequest := ScanRequest(100, None)

  /**
   * `getCareRecipients`: one scan of up to 100 items. `failure` is the error
   * the call may throw; the `catch` turns it into an empty list.
   */
  function GetCareRecipients(rows: seq<Item>, failure: Option<ScanError>): (r: seq<Record>)
    requires HasKeys(rows)
    ensures failure.Some? ==> r == []
    ensures failure.None? ==> r == ProjectAll(rows[..if |rows| < 100 then |rows| else 100], Fields)
    ensures |r| <= 100
  {
    var outcome := if failure.Some? then Err(failure.value) else Scan(rows, LegacyRequest);
    match outcome
    case Err(_) => []
    case Ok(res) => ProjectAll(res.items.GetOr([]), Fields)
  }

  /** A failed call cannot be told apart from an empty table. */
  lemma FailureLooksEmpty(e: ScanError)
    ensures GetCareRecipients([], None) == GetCareRecipients([], Some(e)) == []
  {
  }

  /** Items past the 100th are never returned, and no token says so. */
  lemma LegacyDropsTail(rows: seq<Item>)
    requires HasKeys(rows) && |rows| > 100
    ensures |GetCareRecipients(rows, None)| == 100 < |rows|
  {
  }

  /**
   * `listCareRecipients`: a page of at most `limit ?? 20` records of exactly
   * the 20 fields; a non-empty token that does not decode is an error.
   */
  function ListCareRecipients(rows: seq<Item>, p: ListParams): (r: Result<Page, ListError>)
    requires HasKeys(rows)
    ensures r.Ok? ==> |r.value.items| <= p.limit.GetOr(DefaultLimit)
    ensures r.Ok? ==> forall i :: 0 <= i < |r.value.items| ==> r.value.items[i].Keys == FieldNames()
    ensures Truthy(p.nextToken) ==>
              (r == Err(MalformedToken) <==> Cursor.DecodeToken(p.nextToken.value).None?)
    ensures !Truthy(p.nextToken) && p.limit.GetOr(DefaultLimit) < 1 ==> r == Err(ScanFailed(ValidationException))
    ensures !Truthy(p.nextToken) && p.limit.GetOr(DefaultLimit) >= 1 ==> r.Ok?
  {
    List(Tokens, rows, p, Fields)
  }

  /**
   * Each token the operation returns decodes to the key of the last record
   * of its page, so passing it back resumes right after that record.
   */
  lemma NextTokenDecodes(rows: seq<Item>, p: ListParams)
    requires HasKeys(rows)
    requires ListCareRecipients(rows, p).Ok? && ListCareRecipients(rows, p).value.nextToken.Some?
    ensures ResumesAfterLast(Tokens, ListCareRecipients(rows, p).value)
  {
    assert Fields[0] == "id";
    TokensRoundTrip();
    TokenResumesAfterLast(Tokens, rows, p, Fields, ListCareRecipients(rows, p).value);
  }

  /** Following the tokens from the first page returns every care recipient once, in scan order. */
  lemma ListingReturnsAll(rows: seq<Item>, limit: int)
    requires WellKeyed(rows) && limit >= 1
    ensures Walk(Tokens, rows, limit, None, Fields, |rows| + 1) == Some(ProjectAll(rows, Fields))
  {
    WalkVisitsEveryItem(rows, limit, Fields);
  }
}
