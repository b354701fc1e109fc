/**
 * The DynamoDB tables behind the repositories, reduced to what `PutItem` and
 * `Scan` do to a table whose partition key is the string attribute `id`.
 */
module Table {
  import opened Common
  import JsonKey

  /** An item: attribute name to string value (every attribute written here is a string). */
  type Item = map<string, string>

  /** The primary key of an item, as `LastEvaluatedKey` reports it. */
  function KeyOf(item: Item): (k: JsonKey.Key)
    requires "id" in item
    ensures k == [("id", item["id"])] && JsonKey.DistinctNames(k)
  {
    [("id", item["id"])]
  }

  datatype ScanRequest = ScanRequest(limit: int, exclusiveStartKey: Option<JsonKey.Key>)

  /** The scan output; the SDK types `Items` as optional. */
  datatype ScanResult = ScanResult(items: Option<seq<Item>>, lastEvaluatedKey: Option<JsonKey.Key>)

  /**
   * `ValidationException` is what the service answers to a `Limit` below 1 or
   * a start key that is not a key of the table; `ServiceFailure` is any other
   * failure of the call (network, throttling, permissions).
   */
  datatype ScanError = ValidationException | ServiceFailure

  /** The position of the item whose key is `id`. */
  function PositionOf(rows: seq<Item>, id: string): (r: Option<nat>)
    ensures r.Some? ==> r.value < |rows| && "id" in rows[r.value] && rows[r.value]["id"] == id
    ensures r.None? ==> forall i :: 0 <= i < |rows| && "id" in rows[i] ==> rows[i]["id"] != id
  {
    if rows == [] then None
    else if "id" in rows[0] && rows[0]["id"] == id then Some(0)
    else
      match PositionOf(rows[1..], id)
      case None => None
      case Some(p) => Some(p + 1)
  }

  /** Every item has a key. */
  ghost predicate HasKeys(rows: seq<Item>) {
    forall i :: 0 <= i < |rows| ==> "id" in rows[i]
  }

  /** No two items share a key. */
  ghost predicate DistinctIds(rows: seq<Item>)
    requires HasKeys(rows)
  {
    forall i, j :: 0 <= i < j < |rows| ==> rows[i]["id"] != rows[j]["id"]
  }

  /** `DistinctIds`, item by item: no later item has the key of the first. */
  ghost predicate UniqueKeys(rows: seq<Item>)
    requires HasKeys(rows)
  {
    rows == [] || (PositionOf(rows[1..], rows[0]["id"]).None? && UniqueKeys(rows[1..]))
  }

  ghost predicate WellKeyed(rows: seq<Item>) {
    HasKeys(rows) && UniqueKeys(rows)
  }

  lemma {:induction false} UniqueKeysIff(rows: seq<Item>)
    requires HasKeys(rows)
    ensures UniqueKeys(rows) <==> DistinctIds(rows)
  {
    if rows != [] {
      var tail := rows[1..];
      UniqueKeysIff(tail);
      if UniqueKeys(rows) {
        forall i, j | 0 <= i < j < |rows| ensures rows[i]["id"] != rows[j]["id"] {
          if i > 0 {
            assert rows[i] == tail[i - 1] && rows[j] == tail[j - 1];
          } else {
            assert rows[j] == tail[j - 1];
          }
        }
      }
      if DistinctIds(rows) {
        assert DistinctIds(tail) by {
          forall i, j | 0 <= i < j < |tail| ensures tail[i]["id"] != tail[j]["id"] {
            assert tail[i] == rows[i + 1] && tail[j] == rows[j + 1];
          }
        }
      }
    }
  }

  /** The key of each item finds that item. */
  lemma {:induction false} PositionOfKey(rows: seq<Item>, i: nat)
    requires WellKeyed(rows) && i < |rows|
    ensures PositionOf(rows, rows[i]["id"]) == Some(i)
  {
    if i > 0 {
      var tail := rows[1..];
      assert rows[i] == tail[i - 1];
      assert rows[0]["id"] != rows[i]["id"];
      PositionOfKey(tail, i - 1);
    }
  }

  /** `PutItem`: an item replaces the one with the same key, or is added after the others. */
  function PutRows(rows: seq<Item>, item: Item): (r: seq<Item>)
    requires "id" in item
  {
    match PositionOf(rows, item["id"])
    case Some(p) => rows[p := item]
    case None => rows + [item]
  }

  lemma PutRowsKeepsKeys(rows: seq<Item>, item: Item)
    requires WellKeyed(rows) && "id" in item
    ensures var r := PutRows(rows, item);
            WellKeyed(r)
            && item in r
            && (|r| == |rows| || |r| == |rows| + 1)
            && (forall i :: 0 <= i < |rows| && rows[i]["id"] != item["id"] ==> rows[i] in r)
  {
    var r := PutRows(rows, item);
    UniqueKeysIff(rows);
    match PositionOf(rows, item["id"]) {
      case Some(p) =>
        assert r[p] == item;
        forall i | 0 <= i < |rows| && rows[i]["id"] != item["id"] ensures rows[i] in r {
          assert r[i] == rows[i];
        }
      case None =>
        assert r[|rows|] == item;
        forall i | 0 <= i < |rows| ensures rows[i] in r {
          assert r[i] == rows[i];
        }
    }
    assert HasKeys(r);
    assert DistinctIds(r);
    UniqueKeysIff(r);
  }

  /** The table: its items in scan order. */
  class Table {
    var rows: seq<Item>

    ghost predicate Valid()
      reads this
    {
      WellKeyed(rows)
    }

    constructor()
      ensures Valid() && rows == []
    {
      rows := [];
    }

    method Put(item: Item)
      requires Valid() && "id" in item
      modifies this
      ensures Valid() && rows == PutRows(old(rows), item)
    {
      PutRowsKeepsKeys(rows, item);
      rows := PutRows(rows, item);
    }
  }

  /** Where a scan starts: `None` for a start key the table does not accept. */
  function StartOf(rows: seq<Item>, start: Option<JsonKey.Key>): (r: Option<nat>)
    ensures r.Some? ==> r.value <= |rows|
  {
    match start
    case None => Some(0)
    case Some(k) =>
      if |k| == 1 && k[0].0 == "id" then
        match PositionOf(rows, k[0].1)
        case Some(p) => Some(p + 1)
        case None => Some(|rows|)
      else None
  }

  /**
   * `Scan` of a table holding `rows`: at most `limit` items after the start
   * key. When the page holds `limit` items the scan stopped on the limit and
   * reports the key of its last item, even if nothing follows.
   */
  function Scan(rows: seq<Item>, req: ScanRequest): (r: Result<ScanResult, ScanError>)
    requires HasKeys(rows)
    ensures req.limit < 1 ==> r == Err(ValidationException)
    ensures r.Ok? ==> r.value.items.Some? && |r.value.items.value| <= req.limit
    ensures r.Ok? ==> HasKeys(r.value.items.value)
    ensures r.Ok? && r.value.lastEvaluatedKey.Some? ==>
              var items := r.value.items.value;
              |items| == req.limit && r.value.lastEvaluatedKey.value == KeyOf(items[|items| - 1])
  {
    if req.limit < 1 then Err(ValidationException)
    else
      match StartOf(rows, req.exclusiveStartKey)
      case None => Err(ValidationException)
      case Some(s) =>
        var e := if s + req.limit <= |rows| then s + req.limit else |rows|;
        var items := rows[s..e];
        Ok(ScanResult(Some(items), if e - s == req.limit then Some(KeyOf(rows[e - 1])) else None))
  }
}
