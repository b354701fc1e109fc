/** The care-recipient card: a paged list over the page cache, with expandable rows. */
module CareRecipientCard {
  import opened Common
  import opened PageCache
  import opened CareRows

  /** The page size the card requests. */
  const PageSize := 5

  class CareRecipientCard {
    const cache: PageCache<ApiCareRecipient>
    var expandedRows: set<string>
    var tableList: map<string, TableRow>

    ghost predicate Valid()
      reads this, cache
    {
      cache.Valid()
    }

    constructor()
      ensures Valid() && fresh(cache)
      ensures cache.pages == [] && cache.index == 0 && cache.tokenForFetch == None
      ensures expandedRows == {} && tableList == map[]
    {
      cache := new PageCache();
      expandedRows := {};
      tableList := map[];
    }

    /**
     * The table effect: the rows of the page shown replace the table; with
     * no page at the index the table is kept. `age` is `calculateAge`.
     */
    method ShowCurrentPage(age: string -> int)
      modifies this
      ensures expandedRows == old(expandedRows)
      ensures cache.Current().None? ==> tableList == old(tableList)
      ensures cache.Current().Some? ==> tableList == RowMap(cache.Current().value.items, age, false)
    {
      var page := cache.Current();
      if page.None? {
        return;
      }
      tableList := RowMap(page.value.items, age, false);
    }

    /** `toggleExpanded(id)` */
    method ToggleExpanded(id: string)
      modifies this
      ensures tableList == old(tableList) && expandedRows == Toggle(old(expandedRows), id)
    {
      expandedRows := Toggle(expandedRows, id);
    }

    /**
     * `handleSubmit`: nothing without a form `addId`; otherwise the create
     * runs, and when it returns an id every page, the index, the token, the
     * last appended key and the expanded rows are reset.
     */
    method HandleSubmit(addId: Option<string>, createdId: Option<string>)
      requires Valid()
      modifies this, cache
      ensures Valid() && tableList == old(tableList)
      ensures addId.None? || !Truthy(createdId) ==>
                && expandedRows == old(expandedRows)
                && cache.pages == old(cache.pages) && cache.index == old(cache.index)
                && cache.tokenForFetch == old(cache.tokenForFetch)
                && cache.lastAppendedKey == old(cache.lastAppendedKey)
      ensures addId.Some? && Truthy(createdId) ==>
                && expandedRows == {}
                && cache.pages == [] && cache.index == 0
                && cache.tokenForFetch == None && cache.lastAppendedKey == None
    {
      if addId.None? {
        return;
      }
      if !Truthy(createdId) {
        return;
      }
      cache.Reset();
      expandedRows := {};
    }
  }
}
