/** The staff card: a paged list over the page cache. */
module StaffCard {
  import opened Common
  import opened PageCache

  /** A listed staff member as the query returns it; any field may be null. */
  datatype ApiStaff = ApiStaff(
    id: Option<string>,
    name: Option<string>,
    staffId: Option<string>,
    address: Option<string>,
    qualification: Option<string>)

  /** The page size the card requests. */
  const PageSize := 5

  class StaffCard {
    const cache: PageCache<ApiStaff>

    ghost predicate Valid()
      reads this, cache
    {
      cache.Valid()
    }

    constructor()
      ensures Valid() && fresh(cache)
      ensures cache.pages == [] && cache.index == 0 && cache.tokenForFetch == None
    {
      cache := new PageCache();
    }

    /** The append effect of the staff query, as the page cache defines it. */
    method AppendPage(fetching: bool, data: Option<QueryData<ApiStaff>>)
      requires Valid()
      modifies cache
      ensures Valid() && cache.tokenForFetch == old(cache.tokenForFetch)
      ensures fetching || data.None? || old(cache.lastAppendedKey) == Some(TokenKey(cache.tokenForFetch)) ==>
                && cache.pages == old(cache.pages) && cache.index == old(cache.index)
                && cache.lastAppendedKey == old(cache.lastAppendedKey)
      ensures !(fetching || data.None? || old(cache.lastAppendedKey) == Some(TokenKey(cache.tokenForFetch))) ==>
                && cache.pages == old(cache.pages) + [CachedPage(Present(data.value.items.GetOr([])), data.value.nextToken)]
                && cache.index == |cache.pages| - 1
                && cache.lastAppendedKey == Some(TokenKey(cache.tokenForFetch))
    {
      cache.Append(fetching, data);
    }

    /** `goPrev` */
    method GoPrev(fetching: bool)
      requires Valid()
      modifies cache
      ensures Valid() && cache.pages == old(cache.pages) && cache.tokenForFetch == old(cache.tokenForFetch)
      ensures cache.lastAppendedKey == old(cache.lastAppendedKey)
      ensures cache.index == (if old(cache.PrevDisabled(fetching)) then old(cache.index) else old(cache.index) - 1)
    {
      cache.GoPrev(fetching);
    }

    /** `goNext` */
    method GoNext(fetching: bool)
      requires Valid()
      modifies cache
      ensures Valid() && cache.pages == old(cache.pages) && cache.lastAppendedKey == old(cache.lastAppendedKey)
      ensures fetching ==> cache.index == old(cache.index) && cache.tokenForFetch == old(cache.tokenForFetch)
      ensures !fetching && old(cache.index) < |cache.pages| - 1 ==>
                cache.index == old(cache.index) + 1 && cache.tokenForFetch == old(cache.tokenForFetch)
      ensures !fetching && old(cache.index) >= |cache.pages| - 1 && !old(cache.NextDisabled(fetching)) ==>
                cache.index == old(cache.index) && cache.tokenForFetch == cache.pages[cache.index].nextToken
      ensures old(cache.NextDisabled(fetching)) && old(cache.index) >= |cache.pages| - 1 ==>
                cache.index == old(cache.index) && cache.tokenForFetch == old(cache.tokenForFetch)
    {
      cache.GoNext(fetching);
    }

    /**
     * `handleSubmit`: the create runs for every form; when it returns an id
     * every page, the index, the token and the last appended key are reset.
     */
    method HandleSubmit(createdId: Option<string>)
      requires Valid()
      modifies cache
      ensures Valid()
      ensures !Truthy(createdId) ==>
                && cache.pages == old(cache.pages) && cache.index == old(cache.index)
                && cache.tokenForFetch == old(cache.tokenForFetch)
                && cache.lastAppendedKey == old(cache.lastAppendedKey)
      ensures Truthy(createdId) ==>
                cache.pages == [] && cache.index == 0 && cache.tokenForFetch == None && cache.lastAppendedKey == None
    {
      if !Truthy(createdId) {
        return;
      }
      cache.Reset();
    }

    /** `currentItems`: the items of the page shown, or none. */
    function CurrentItems(): (items: seq<ApiStaff>)
      reads this, cache
      ensures 0 <= cache.index < |cache.pages| ==> items == cache.pages[cache.index].items
      ensures !(0 <= cache.index < |cache.pages|) ==> items == []
    {
      match cache.Current()
      case Some(page) => page.items
      case None => []
    }
  }
}
