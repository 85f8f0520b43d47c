// The public catalog endpoints (backend/routers/system_routes.py): search
// with a total and a limited page, and lookup by identifier. The catalog is
// the sequence `load_program_catalog` returns; the root and health handlers
// are not part of this model.
module SystemRoutes {
  import opened Wrappers
  import opened Text
  import opened Seqs
  import opened Http
  import opened ProgramCatalog

  /** `ProgramCatalogSearchResponse`. */
  datatype SearchResponse = SearchResponse(total: nat, items: seq<CatalogItem>)

  /** The query-parameter rules: a query of 2 to 120 characters when given, a limit from 1 to 200. */
  predicate ValidSearchParameters(query: Option<string>, limit: int)
  {
    (query.None? || 2 <= |query.value| <= 120) && 1 <= limit <= 200
  }

  /** The items a search matches: the whole catalog without a query. */
  function SearchMatches(catalog: seq<CatalogItem>, query: Option<string>): seq<CatalogItem>
  {
    if query.Some? && query.value != "" then Filter(catalog, MatchesCatalogQuery(Lower(Trim(query.value))))
    else catalog
  }

  /**
   * `list_program_catalog`: parameters outside the rules are refused with
   * 422; otherwise the total counts every match and the page holds the
   * first `limit` of them.
   */
  function ListProgramCatalog(catalog: seq<CatalogItem>, query: Option<string>, limit: int)
    : (r: Result<SearchResponse, HttpError>)
    ensures r.Err? <==> !ValidSearchParameters(query, limit)
    ensures r.Err? ==> r.error.status == UnprocessableEntity
  {
    if !ValidSearchParameters(query, limit) then Err(HttpError(UnprocessableEntity, "Invalid query parameters"))
    else
      var matches := SearchMatches(catalog, query);
      Ok(SearchResponse(|matches|, Take(matches, limit)))
  }

  /**
   * A page holds `limit` items when there are that many matches and all of
   * them otherwise, each the match at its position, so in catalog order.
   * With a query every match, and only a match, is counted; without one the
   * whole catalog is.
   */
  lemma SearchPage(catalog: seq<CatalogItem>, query: Option<string>, limit: int)
    requires ValidSearchParameters(query, limit)
    ensures var r := ListProgramCatalog(catalog, query, limit).value;
      var matches := SearchMatches(catalog, query);
      && r.total == |matches|
      && |r.items| == (if r.total >= limit then limit else r.total)
      && (forall i :: 0 <= i < |r.items| ==> r.items[i] == matches[i])
    ensures query.None? ==> ListProgramCatalog(catalog, query, limit).value.total == |catalog|
    ensures query.Some? ==> forall item :: item in SearchMatches(catalog, query) <==>
      item in catalog && MatchesCatalogQuery(Lower(Trim(query.value)))(item)
  {
    if query.Some? {
      FilterMembers(catalog, MatchesCatalogQuery(Lower(Trim(query.value))));
    }
  }

  /** `get_program_catalog_item`: the first item with the identifier, else 404. */
  function GetProgramCatalogItem(catalog: seq<CatalogItem>, programId: string): (r: Result<CatalogItem, HttpError>)
    ensures r.Ok? ==> r.value.id == programId && r.value in catalog
    ensures r.Ok? ==> exists k :: (0 <= k < |catalog| && catalog[k] == r.value
                                   && forall j :: 0 <= j < k ==> catalog[j].id != programId)
    ensures r.Err? <==> forall j :: 0 <= j < |catalog| ==> catalog[j].id != programId
    ensures r.Err? ==> r.error.status == NotFound
  {
    match FirstIndex(catalog, (item: CatalogItem) => item.id == programId)
    case None => Err(HttpError(NotFound, "Program catalog item not found"))
    case Some(k) => Ok(catalog[k])
  }
}
