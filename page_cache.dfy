/**
 * The page cache the two list cards share: fetched pages, the page shown,
 * the token of the page to fetch, and the token key of the page appended
 * last, used to drop a second append of the same query result.
 */
module PageCache {
  import opened Common
  import JsonKey
  import Cursor

  /** A fetched page: `{ items, nextToken: string | null }`. */
  datatype CachedPage<T> = CachedPage(items: seq<T>, nextToken: Option<string>)

  /**
   * The query's `data.list*`: its items (absent when the field is null) with
   * their `null` entries, and the next token.
   */
  datatype QueryData<T> = QueryData(items: Option<seq<Option<T>>>, nextToken: Option<string>)

  /** The key that stands for "no token", the request for the first page. */
  const FirstKey := "__FIRST__"

  /** `getTokenKey`: the token itself, or the first-page marker for `null`. */
  function TokenKey(t: Option<string>): (k: string)
    ensures t.Some? ==> k == t.value
    ensures t.None? ==> k == FirstKey
  {
    if t.None? then FirstKey else t.value
  }

  /** A token the list operations issue never has the first page's key. */
  lemma IssuedTokenKeyIsNotFirst(k: JsonKey.Key)
    ensures TokenKey(Some(Cursor.EncodeToken(k))) != TokenKey(None)
  {
    Cursor.TokenIsNotFirstMarker(k);
  }

  /** `raw.filter(Boolean)`: the present entries, in order. */
  function Present<T>(xs: seq<Option<T>>): (r: seq<T>)
    ensures |r| <= |xs|
    ensures forall i :: 0 <= i < |r| ==> Some(r[i]) in xs
    ensures forall i :: 0 <= i < |xs| && xs[i].Some? ==> xs[i].value in r
    ensures (forall i :: 0 <= i < |xs| ==> xs[i].Some?) ==> |r| == |xs|
  {
    if xs == [] then []
    else (if xs[0].Some? then [xs[0].value] else []) + Present(xs[1..])
  }

  class PageCache<T> {
    var pages: seq<CachedPage<T>>
    var index: int
    var tokenForFetch: Option<string>
    var lastAppendedKey: Option<string>

    /**
     * The index is 0 while there are no pages and names a page otherwise;
     * a key has been recorded exactly when a page has been appended.
     */
    ghost predicate Valid()
      reads this
    {
      (if pages == [] then index == 0 else 0 <= index < |pages|)
      && (pages == [] <==> lastAppendedKey.None?)
    }

    constructor()
      ensures Valid()
      ensures pages == [] && index == 0 && tokenForFetch == None && lastAppendedKey == None
    {
      pages := [];
      index := 0;
      tokenForFetch := None;
      lastAppendedKey := None;
    }

    /**
     * The append effect: once the query for `tokenForFetch` has data, its
     * page is added at the end and shown, unless a page for the same token
     * key was the last one appended.
     */
    method Append(fetching: bool, data: Option<QueryData<T>>)
      requires Valid()
      modifies this
      ensures Valid() && tokenForFetch == old(tokenForFetch)
      ensures fetching || data.None? || old(lastAppendedKey) == Some(TokenKey(tokenForFetch)) ==>
                pages == old(pages) && index == old(index) && lastAppendedKey == old(lastAppendedKey)
      ensures !(fetching || data.None? || old(lastAppendedKey) == Some(TokenKey(tokenForFetch))) ==>
                && pages == old(pages) + [CachedPage(Present(data.value.items.GetOr([])), data.value.nextToken)]
                && index == |pages| - 1
                && lastAppendedKey == Some(TokenKey(tokenForFetch))
    {
      if fetching || data.None? {
        return;
      }
      var items := Present(data.value.items.GetOr([]));
      var key := TokenKey(tokenForFetch);
      if lastAppendedKey == Some(key) {
        return;
      }
      pages := pages + [CachedPage(items, data.value.nextToken)];
      index := |pages| - 1;
      lastAppendedKey := Some(key);
    }

    /** `goPrev`: one page back, unless fetching or on the first page. */
    method GoPrev(fetching: bool)
      requires Valid()
      modifies this
      ensures Valid()
      ensures pages == old(pages) && tokenForFetch == old(tokenForFetch) && lastAppendedKey == old(lastAppendedKey)
      ensures index == (if fetching || old(index) == 0 then old(index) else old(index) - 1)
    {
      if fetching || index == 0 {
        return;
      }
      index := index - 1;
    }

    /**
     * `goNext`: to the next cached page if there is one; otherwise request
     * the page after the current one, if it has a non-empty token.
     */
    method GoNext(fetching: bool)
      requires Valid()
      modifies this
      ensures Valid()
      ensures pages == old(pages) && lastAppendedKey == old(lastAppendedKey)
      ensures fetching ==> index == old(index) && tokenForFetch == old(tokenForFetch)
      ensures !fetching && old(index) < |pages| - 1 ==>
                index == old(index) + 1 && tokenForFetch == old(tokenForFetch)
      ensures !fetching && old(index) >= |pages| - 1 ==>
                && index == old(index)
                && var next := if 0 <= index < |pages| then pages[index].nextToken else None;
                   tokenForFetch == (if Truthy(next) then next else old(tokenForFetch))
    {
      if fetching {
        return;
      }
      if index < |pages| - 1 {
        index := index + 1;
        return;
      }
      var token := if 0 <= index < |pages| then pages[index].nextToken else None;
      if !Truthy(token) {
        return;
      }
      tokenForFetch := token;
    }

    /** After a create: drop every page and start again from the first one. */
    method Reset()
      modifies this
      ensures Valid()
      ensures pages == [] && index == 0 && tokenForFetch == None && lastAppendedKey == None
    {
      pages := [];
      index := 0;
      tokenForFetch := None;
      lastAppendedKey := None;
    }

    /** The page shown, if any. */
    function Current(): (r: Option<CachedPage<T>>)
      reads this
      ensures r.Some? <==> 0 <= index < |pages|
      ensures r.Some? ==> r.value == pages[index]
    {
      if 0 <= index < |pages| then Some(pages[index]) else None
    }

    /** "Previous" is disabled while fetching and on the first page. */
    predicate PrevDisabled(fetching: bool): (d: bool)
      reads this
      ensures Valid() && !d ==> !fetching && 1 <= index < |pages|
    {
      fetching || index == 0
    }

    /** "Next" is disabled while fetching, without a page, or when the page has no token. */
    predicate NextDisabled(fetching: bool): (d: bool)
      reads this
      ensures !d <==> !fetching && 0 <= index < |pages| && Truthy(pages[index].nextToken)
    {
      fetching || Current().None? || !Truthy(Current().value.nextToken)
    }
  }
}
