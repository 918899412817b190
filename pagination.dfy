/**
 * `buildPayloadPagination` (src/utils/utils.js:36-63): the query object sent to
 * a list endpoint, built from the table's pagination state and an optional search.
 */
module Pagination {
  import opened Wrappers
  import opened JsValues

  /** The keys every query carries. */
  const BaseKeys: set<string> := {"sort", "order", "page", "limit"}

  /** The keys a truthy search adds. */
  const SearchKeys: set<string> := {"filter", "fields"}

  /** `descending ? -1 : 1`. */
  function Order(descending: Value): (order: int)
    ensures order == -1 || order == 1
    ensures order == -1 <==> Truthy(descending)
  {
    if Truthy(descending) then -1 else 1
  }

  /**
   * Destructures `pagination` (a TypeError when it is null or undefined) and
   * builds the query; `search` is read only when it is truthy.
   */
  function BuildPayloadPagination(pagination: Value, search: Value): (r: Result<Value, JsError>)
    ensures r.Err? <==> Nullish(pagination)
    ensures r.Err? ==> r.error == TypeError
    ensures r.Ok? ==> r.value.Obj?
    ensures r.Ok? ==> r.value.props.Keys == if Truthy(search) then BaseKeys + SearchKeys else BaseKeys
    ensures r.Ok? ==>
      && r.value.props["sort"] == Prop(pagination, "sortBy")
      && r.value.props["order"] == Num(Order(Prop(pagination, "descending")))
      && r.value.props["page"] == Prop(pagination, "page")
      && r.value.props["limit"] == Prop(pagination, "rowsPerPage")
    ensures r.Ok? && Truthy(search) ==>
      && r.value.props["filter"] == Prop(search, "query")
      && r.value.props["fields"] == Prop(search, "fields")
  {
    if Nullish(pagination) then Err(TypeError)
    else
      var sortBy := Prop(pagination, "sortBy");
      var descending := Num(Order(Prop(pagination, "descending")));
      var page := Prop(pagination, "page");
      var rowsPerPage := Prop(pagination, "rowsPerPage");
      if Truthy(search) then
        Ok(Obj(map[
          "sort" := sortBy, "order" := descending, "page" := page, "limit" := rowsPerPage,
          "filter" := Prop(search, "query"), "fields" := Prop(search, "fields")]))
      else
        Ok(Obj(map["sort" := sortBy, "order" := descending, "page" := page, "limit" := rowsPerPage]))
  }

  /** A search only adds `filter` and `fields`; the rest of the query is the unfiltered one. */
  lemma SearchOnlyAddsFilter(pagination: Value, search: Value)
    requires !Nullish(pagination) && Truthy(search)
    ensures BuildPayloadPagination(pagination, search).value.props
         == BuildPayloadPagination(pagination, Null).value.props
         + map["filter" := Prop(search, "query"), "fields" := Prop(search, "fields")]
  {
  }

  /** Any falsy search (null, undefined, "", 0, false, NaN) is the same as no search. */
  lemma FalsySearchIsNoSearch(pagination: Value, search: Value)
    requires !Truthy(search)
    ensures BuildPayloadPagination(pagination, search) == BuildPayloadPagination(pagination, Undefined)
  {
  }

  /** Page 2 of 25 rows sorted ascending by name, no search. */
  lemma UnfilteredExample()
    ensures BuildPayloadPagination(
              Obj(map["sortBy" := Str("name"), "descending" := Bool(false), "page" := Num(2), "rowsPerPage" := Num(25)]),
              Undefined)
         == Ok(Obj(map["sort" := Str("name"), "order" := Num(1), "page" := Num(2), "limit" := Num(25)]))
  {
  }
}
