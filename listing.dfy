/**
 * The list operation both repositories share: the page token becomes the
 * scan's start key, the scan's last key becomes the next page token, and each
 * item is cut down to the record's named fields.
 */
module Listing {
  import opened Common
  import JsonKey
  import Cursor
  import opened Table

  /** `{ limit?: number; nextToken?: string }` */
  datatype ListParams = ListParams(limit: Option<int>, nextToken: Option<string>)

  /** What escapes a list call: the `JSON.parse` exception, or the scan's. */
  datatype ListError = MalformedToken | ScanFailed(cause: ScanError)

  /** A listed record: each named field, `None` where the item has no such attribute. */
  type Record = map<string, Option<string>>

  datatype Page = Page(items: seq<Record>, nextToken: Option<string>)

  const DefaultLimit := 20

  /** The object literal `{ id: item.id, ... }` over the given field names. */
  function Project(item: Item, fields: seq<string>): (r: Record)
    ensures r.Keys == set f | f in fields
    ensures forall f :: f in fields ==> r[f] == (if f in item then Some(item[f]) else None)
  {
    map f | f in fields :: if f in item then Some(item[f]) else None
  }

  /**
   * The page-token codec. The repositories use `Tokens`; the list operation
   * and its proofs only rely on the round trip that `Tokens` is proved to have.
   */
  datatype Codec = Codec(encode: JsonKey.Key -> string, decode: string -> Option<JsonKey.Key>)

  const Tokens := Codec(Cursor.EncodeToken, Cursor.DecodeToken)

  /** Tokens are non-empty, and decoding a token gives back its key. */
  ghost predicate RoundTrips(c: Codec) {
    forall k :: JsonKey.DistinctNames(k) ==> c.decode(c.encode(k)) == Some(k) && c.encode(k) != ""
  }

  lemma TokensRoundTrip()
    ensures RoundTrips(Tokens)
  {
    forall k | JsonKey.DistinctNames(k)
      ensures Tokens.decode(Tokens.encode(k)) == Some(k) && Tokens.encode(k) != ""
    {
      Cursor.DecodeEncodeToken(k);
    }
  }

  /** The start key: decoded from a non-empty token, absent otherwise. */
  function StartKey(c: Codec, p: ListParams): (r: Result<Option<JsonKey.Key>, ListError>)
    ensures !Truthy(p.nextToken) ==> r == Ok(None)
    ensures Truthy(p.nextToken) ==>
              (r == Err(MalformedToken) <==> c.decode(p.nextToken.value).None?)
    ensures r.Ok? && r.value.Some? ==> r.value == c.decode(p.nextToken.value)
  {
    if Truthy(p.nextToken) then
      match c.decode(p.nextToken.value)
      case None => Err(MalformedToken)
      case Some(k) => Ok(Some(k))
    else Ok(None)
  }

  /** The scan request: `Limit: params.limit ?? 20`, passed on as given. */
  function RequestFor(c: Codec, p: ListParams): (r: Result<ScanRequest, ListError>)
    ensures r.Ok? ==> r.value.limit == (if p.limit.Some? then p.limit.value else DefaultLimit)
    ensures r.Ok? <==> StartKey(c, p).Ok?
    ensures r.Ok? ==> r.value.exclusiveStartKey == StartKey(c, p).value
  {
    match StartKey(c, p)
    case Err(e) => Err(e)
    case Ok(start) => Ok(ScanRequest(p.limit.GetOr(DefaultLimit), start))
  }

  /** `items.map(item => ({ ... }))` */
  function ProjectAll(items: seq<Item>, fields: seq<string>): (r: seq<Record>)
    ensures |r| == |items|
  {
    seq(|items|, i requires 0 <= i < |items| => Project(items[i], fields))
  }

  /** The page built from a scan's output: `(res.Items || []).map(...)` and the next token. */
  function PageOf(c: Codec, res: ScanResult, fields: seq<string>): (pg: Page)
    ensures res.items.None? ==> pg.items == []
    ensures res.items.Some? ==> pg.items == ProjectAll(res.items.value, fields)
    ensures pg.nextToken.Some? <==> res.lastEvaluatedKey.Some?
  {
    var nextToken :=
      match res.lastEvaluatedKey
      case None => None
      case Some(k) => Some(c.encode(k));
    Page(ProjectAll(res.items.GetOr([]), fields), nextToken)
  }

  /** The next token of a page decodes to the scan's last key. */
  lemma PageTokenDecodes(res: ScanResult, fields: seq<string>)
    requires res.lastEvaluatedKey.Some? && JsonKey.DistinctNames(res.lastEvaluatedKey.value)
    ensures var pg := PageOf(Tokens, res, fields);
            Truthy(pg.nextToken) && Tokens.decode(pg.nextToken.value) == Some(res.lastEvaluatedKey.value)
  {
    Cursor.DecodeEncodeToken(res.lastEvaluatedKey.value);
  }

  /** `list*(docClient, params)` against a table holding `rows`. */
  function List(c: Codec, rows: seq<Item>, p: ListParams, fields: seq<string>): (r: Result<Page, ListError>)
    requires HasKeys(rows)
    ensures p.limit.Some? && p.limit.value < 1 ==> r.Err?
    ensures r == Err(MalformedToken) <==> StartKey(c, p) == Err(MalformedToken)
    ensures r.Ok? ==> |r.value.items| <= p.limit.GetOr(DefaultLimit)
    ensures r.Ok? ==> forall i :: 0 <= i < |r.value.items| ==> r.value.items[i].Keys == set f | f in fields
    ensures !Truthy(p.nextToken) && p.limit.GetOr(DefaultLimit) >= 1 ==> r.Ok?
    ensures !Truthy(p.nextToken) && p.limit.GetOr(DefaultLimit) < 1 ==> r == Err(ScanFailed(ValidationException))
  {
    match RequestFor(c, p)
    case Err(e) => Err(e)
    case Ok(req) =>
      match Scan(rows, req)
      case Err(e) => Err(ScanFailed(e))
      case Ok(res) => Ok(PageOf(c, res, fields))
  }

  /**
   * Without a token the scan starts at the first item: the page is the
   * first `limit` items, with a token exactly when the page is full.
   */
  lemma ListFirstPage(c: Codec, rows: seq<Item>, p: ListParams, fields: seq<string>)
    requires HasKeys(rows) && !Truthy(p.nextToken) && p.limit.GetOr(DefaultLimit) >= 1
    ensures var limit := p.limit.GetOr(DefaultLimit);
            var e := if limit <= |rows| then limit else |rows|;
            List(c, rows, p, fields)
            == Ok(Page(ProjectAll(rows[..e], fields), if e == limit then Some(c.encode(KeyOf(rows[e - 1]))) else None))
  {
    assert StartKey(c, p) == Ok(None);
  }

  /** A returned token is the encoding of the key of the page's last record. */
  lemma NextTokenResumes(c: Codec, rows: seq<Item>, p: ListParams, fields: seq<string>)
    requires HasKeys(rows) && "id" in fields
    requires List(c, rows, p, fields).Ok? && List(c, rows, p, fields).value.nextToken.Some?
    ensures var pg := List(c, rows, p, fields).value;
            |pg.items| >= 1 && pg.items[|pg.items| - 1]["id"].Some?
            && pg.nextToken == Some(c.encode([("id", pg.items[|pg.items| - 1]["id"].value)]))
  {
    var req := RequestFor(c, p).value;
    var res := Scan(rows, req).value;
    var items := res.items.value;
    var pg := PageOf(c, res, fields);
    assert List(c, rows, p, fields).value == pg;
    var last := items[|items| - 1];
    assert "id" in last;
    var k := KeyOf(last);
    assert res.lastEvaluatedKey == Some(k);
    assert pg.nextToken == Some(c.encode(k));
    assert pg.items[|pg.items| - 1] == Project(last, fields);
  }

  /**
   * The page's token, decoded with the codec, is the key of the page's last
   * record: the scan resumes right after that record.
   */
  predicate ResumesAfterLast(c: Codec, pg: Page) {
    && |pg.items| >= 1 && "id" in pg.items[|pg.items| - 1] && pg.items[|pg.items| - 1]["id"].Some?
    && Truthy(pg.nextToken)
    && c.decode(pg.nextToken.value) == Some([("id", pg.items[|pg.items| - 1]["id"].value)])
  }

  /** With a codec that round-trips, every returned token resumes after the page's last record. */
  lemma TokenResumesAfterLast(c: Codec, rows: seq<Item>, p: ListParams, fields: seq<string>, pg: Page)
    requires RoundTrips(c) && HasKeys(rows) && "id" in fields
    requires List(c, rows, p, fields) == Ok(pg) && pg.nextToken.Some?
    ensures ResumesAfterLast(c, pg)
  {
    NextTokenResumes(c, rows, p, fields);
    var key := [("id", pg.items[|pg.items| - 1]["id"].value)];
    assert JsonKey.DistinctNames(key);
    assert pg.nextToken.value == c.encode(key);
  }

  /** The token that resumes a scan at position `s`: none for the first page. */
  function TokenAt(c: Codec, rows: seq<Item>, s: nat): (r: Option<string>)
    requires s <= |rows| && HasKeys(rows)
  {
    if s == 0 then None else Some(c.encode(KeyOf(rows[s - 1])))
  }

  /**
   * A client that lists with a fixed limit and follows each page's token
   * until none is returned; `fuel` bounds the number of calls.
   */
  function Walk(c: Codec, rows: seq<Item>, limit: int, token: Option<string>, fields: seq<string>, fuel: nat): Option<seq<Record>>
    requires HasKeys(rows)
    decreases fuel
  {
    if fuel == 0 then None
    else
      match List(c, rows, ListParams(Some(limit), token), fields)
      case Err(_) => None
      case Ok(pg) =>
        if pg.nextToken.None? then Some(pg.items)
        else
          match Walk(c, rows, limit, pg.nextToken, fields, fuel - 1)
          case None => None
          case Some(rest) => Some(pg.items + rest)
  }

  lemma ProjectAllAppend(a: seq<Item>, b: seq<Item>, fields: seq<string>)
    ensures ProjectAll(a + b, fields) == ProjectAll(a, fields) + ProjectAll(b, fields)
  {
    var l := ProjectAll(a + b, fields);
    var r := ProjectAll(a, fields) + ProjectAll(b, fields);
    assert |l| == |r|;
    forall i | 0 <= i < |l| ensures l[i] == r[i] {
      if i < |a| {
        assert (a + b)[i] == a[i];
      } else {
        assert (a + b)[i] == b[i - |a|];
      }
    }
  }

  /** Projecting a suffix is projecting its first rows, then the rest. */
  lemma ProjectAllSplit(rows: seq<Item>, s: nat, e: nat, fields: seq<string>)
    requires s <= e <= |rows|
    ensures ProjectAll(rows[s..e], fields) + ProjectAll(rows[e..], fields) == ProjectAll(rows[s..], fields)
  {
    ProjectAllAppend(rows[s..e], rows[e..], fields);
    SliceSplit(rows, s, e);
  }

  /** One call from position `s`: the next `limit` rows, and the token for where it stopped. */
  lemma ListAt(c: Codec, rows: seq<Item>, limit: int, s: nat, e: nat, fields: seq<string>)
    requires RoundTrips(c) && WellKeyed(rows) && limit >= 1 && s <= |rows|
    requires e == if s + limit <= |rows| then s + limit else |rows|
    ensures List(c, rows, ListParams(Some(limit), TokenAt(c, rows, s)), fields)
            == Ok(Page(ProjectAll(rows[s..e], fields), if e - s == limit then TokenAt(c, rows, e) else None))
  {
    var p := ListParams(Some(limit), TokenAt(c, rows, s));
    if s > 0 {
      var k := KeyOf(rows[s - 1]);
      assert StartKey(c, p) == Ok(Some(k));
      PositionOfKey(rows, s - 1);
      assert StartOf(rows, Some(k)) == Some(s);
    } else {
      assert StartKey(c, p) == Ok(None);
    }
  }

  /** A call that fills its page goes on with the token it returns. */
  lemma WalkFull(c: Codec, rows: seq<Item>, limit: int, s: nat, e: nat, fields: seq<string>, f: nat, tail: seq<Record>)
    requires RoundTrips(c) && WellKeyed(rows) && limit >= 1 && e == s + limit <= |rows|
    requires Walk(c, rows, limit, TokenAt(c, rows, e), fields, f) == Some(tail)
    ensures Walk(c, rows, limit, TokenAt(c, rows, s), fields, f + 1) == Some(ProjectAll(rows[s..e], fields) + tail)
  {
    ListAt(c, rows, limit, s, e, fields);
  }

  /** A call that does not fill its page is the last one. */
  lemma WalkLast(c: Codec, rows: seq<Item>, limit: int, s: nat, fields: seq<string>, fuel: nat)
    requires RoundTrips(c) && WellKeyed(rows) && limit >= 1 && s <= |rows| < s + limit && fuel > 0
    ensures Walk(c, rows, limit, TokenAt(c, rows, s), fields, fuel) == Some(ProjectAll(rows[s..], fields))
  {
    ListAt(c, rows, limit, s, |rows|, fields);
    var p := ListParams(Some(limit), TokenAt(c, rows, s));
    var items := ProjectAll(rows[s..|rows|], fields);
    assert List(c, rows, p, fields) == Ok(Page(items, None));
    assert rows[s..|rows|] == rows[s..];
    assert Walk(c, rows, limit, p.nextToken, fields, fuel) == Some(items);
  }

  /** Following the tokens from the token for position `s` lists the rows from `s` on. */
  ghost predicate WalksFrom(c: Codec, rows: seq<Item>, limit: int, s: nat, fields: seq<string>, fuel: nat)
    requires WellKeyed(rows) && s <= |rows|
  {
    Walk(c, rows, limit, TokenAt(c, rows, s), fields, fuel) == Some(ProjectAll(rows[s..], fields))
  }

  /** A walk from the end of a full page extends to a walk from its start. */
  lemma WalkStep(c: Codec, rows: seq<Item>, limit: int, s: nat, e: nat, fields: seq<string>, fuel: nat, f: nat)
    requires RoundTrips(c) && WellKeyed(rows) && limit >= 1 && e == s + limit <= |rows| && fuel == f + 1
    requires WalksFrom(c, rows, limit, e, fields, f)
    ensures WalksFrom(c, rows, limit, s, fields, fuel)
  {
    WalkFull(c, rows, limit, s, e, fields, f, ProjectAll(rows[e..], fields));
    ProjectAllSplit(rows, s, e, fields);
  }

  /** With one call per remaining row and one more, the walk from `s` lists every row from `s` on. */
  lemma {:induction false} WalkFrom(c: Codec, rows: seq<Item>, limit: int, s: nat, fields: seq<string>, fuel: nat)
    requires RoundTrips(c) && WellKeyed(rows) && limit >= 1 && s <= |rows|
    requires fuel > |rows| - s
    ensures WalksFrom(c, rows, limit, s, fields, fuel)
    decreases fuel
  {
    if s + limit <= |rows| {
      var e: nat, f: nat := s + limit, fuel - 1;
      WalkFrom(c, rows, limit, e, fields, f);
      WalkStep(c, rows, limit, s, e, fields, fuel, f);
    } else {
      WalkLast(c, rows, limit, s, fields, fuel);
    }
  }

  /**
   * Following the tokens from the first page lists every item of the table
   * exactly once, in scan order.
   */
  lemma WalkVisitsEveryItem(rows: seq<Item>, limit: int, fields: seq<string>)
    requires WellKeyed(rows) && limit >= 1
    ensures Walk(Tokens, rows, limit, None, fields, |rows| + 1) == Some(ProjectAll(rows, fields))
  {
    TokensRoundTrip();
    WalkFrom(Tokens, rows, limit, 0, fields, |rows| + 1);
    assert rows[0..] == rows;
  }
}
