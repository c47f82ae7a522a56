/**
 * The query builder `APIFeatures`: it keeps the client's query parameters and
 * a deferred database query, and each of `filter`, `sort`, `limitFields` and
 * `paginate` replaces the query by a refined one.  The deferred query is
 * modelled as the list of refinements requested so far.
 */
module ApiFeatures {
  import opened Wrappers
  import opened QueryParams
  import CommaList
  import NumberCoercion

  /** One refinement of the deferred query, in the order it was requested. */
  datatype Refinement =
    | Find(conditions: ParamMap)
    | SortBy(spec: string)
    | Select(spec: string)
    | Skip(count: int)
    | Limit(count: int)

  /**
   * The two `TypeError`s the builder can throw: calling `.split` on a
   * parameter that is an array or an object, and `* 1` on a parameter that
   * cannot be converted to a primitive value.
   */
  datatype TypeError = SplitNotAFunction(key: string) | NoPrimitive(key: string)

  const DefaultSort: string := "-createdAt"
  const DefaultSelect: string := "-__v"
  const DefaultPage: int := 1
  const DefaultLimit: int := 100

  /** `s.split(',').join(' ')`. */
  function SpaceList(s: string): string {
    CommaList.Join(CommaList.Split(s, ','), ' ')
  }

  /** The space list is the comma list with every comma replaced by a space. */
  lemma SpaceListReplacesCommas(s: string)
    ensures CommaList.IsReplacement(SpaceList(s), s, ',', ' ')
  {
    CommaList.JoinSplit(s, ',', ' ');
  }

  /** The field list keeps its order: the space list splits into the comma list's pieces. */
  lemma SpaceListKeepsFields(s: string)
    requires ' ' !in s
    ensures CommaList.Split(SpaceList(s), ' ') == CommaList.Split(s, ',')
  {
    CommaList.SpaceListFields(s);
  }

  /**
   * The argument `sort` or `limitFields` hands to Mongoose for parameter `key`:
   * the parameter as a space list when it is truthy, the default otherwise; a
   * truthy array or object has no `split` and throws.
   */
  function ListArgument(q: ParamMap, key: string, default: string): (r: Result<string, TypeError>)
    ensures !Truthy(Param(q, key)) ==> r == Ok(default)
    ensures Truthy(Param(q, key)) ==> (r.Ok? <==> q[key].Str?)
    ensures Truthy(Param(q, key)) && !q[key].Str? ==> r == Err(SplitNotAFunction(key))
  {
    match Param(q, key)
    case None => Ok(default)
    case Some(Str(s)) => if s == [] then Ok(default) else Ok(SpaceList(s))
    case Some(_) => Err(SplitNotAFunction(key))
  }

  /** A truthy string parameter becomes itself with every comma replaced by a space. */
  lemma ListArgumentReplacesCommas(q: ParamMap, key: string, default: string)
    requires Truthy(Param(q, key)) && q[key].Str?
    ensures ListArgument(q, key, default).Ok?
    ensures CommaList.IsReplacement(ListArgument(q, key, default).value, q[key].s, ',', ' ')
  {
    SpaceListReplacesCommas(q[key].s);
  }

  /** The argument of `sort`: `-createdAt` unless `sort` is truthy; only a string can be split. */
  function SortArgument(q: ParamMap): (r: Result<string, TypeError>)
    ensures !Truthy(Param(q, "sort")) ==> r == Ok(DefaultSort)
    ensures r.Err? <==> Truthy(Param(q, "sort")) && !q["sort"].Str?
    ensures r.Err? ==> r.error == SplitNotAFunction("sort")
  {
    ListArgument(q, "sort", DefaultSort)
  }

  /** The argument of `select`: `-__v` unless `fields` is truthy; only a string can be split. */
  function SelectArgument(q: ParamMap): (r: Result<string, TypeError>)
    ensures !Truthy(Param(q, "fields")) ==> r == Ok(DefaultSelect)
    ensures r.Err? <==> Truthy(Param(q, "fields")) && !q["fields"].Str?
    ensures r.Err? ==> r.error == SplitNotAFunction("fields")
  {
    ListArgument(q, "fields", DefaultSelect)
  }

  /** `page * 1 || 1`: never 0, and either 1 or the number the parameter reads as. */
  function PageNumber(q: ParamMap): (n: int)
    ensures n != 0
    ensures n == 1 || ("page" in q && NumberOf(q["page"]) == Some(n))
  {
    NumberOr(Param(q, "page"), DefaultPage)
  }

  /** `limit * 1 || 100`: never 0, and either 100 or the number the parameter reads as. */
  function PageSize(q: ParamMap): (n: int)
    ensures n != 0
    ensures n == 100 || ("limit" in q && NumberOf(q["limit"]) == Some(n))
  {
    NumberOr(Param(q, "limit"), DefaultLimit)
  }

  /**
   * A page or a limit that reads as a non-zero number is kept, negative ones
   * included; zero, NaN and a missing parameter give 1 and 100.
   */
  lemma PagingFallbacks(q: ParamMap)
    ensures "page" !in q || NumberOf(q["page"]) in {None, Some(0)} ==> PageNumber(q) == 1
    ensures "page" in q && NumberOf(q["page"]).Some? && NumberOf(q["page"]).value != 0 ==>
      PageNumber(q) == NumberOf(q["page"]).value
    ensures "limit" !in q || NumberOf(q["limit"]) in {None, Some(0)} ==> PageSize(q) == 100
    ensures "limit" in q && NumberOf(q["limit"]).Some? && NumberOf(q["limit"]).value != 0 ==>
      PageSize(q) == NumberOf(q["limit"]).value
  {
  }

  /** `key * 1` throws: the parameter cannot be converted to a primitive value. */
  predicate CoercionThrows(q: ParamMap, key: string) {
    key in q && ToPrimitiveThrows(q[key])
  }

  /**
   * The page number and page size of `paginate`, or the `TypeError` of
   * `page * 1`, which is evaluated first, or of `limit * 1`.
   */
  function Paging(q: ParamMap): (r: Result<(int, int), TypeError>)
    ensures r.Err? <==> CoercionThrows(q, "page") || CoercionThrows(q, "limit")
    ensures r.Err? ==> r.error == NoPrimitive(if CoercionThrows(q, "page") then "page" else "limit")
    ensures r.Ok? ==> r.value == (PageNumber(q), PageSize(q))
  {
    if CoercionThrows(q, "page") then Err(NoPrimitive("page"))
    else if CoercionThrows(q, "limit") then Err(NoPrimitive("limit"))
    else Ok((PageNumber(q), PageSize(q)))
  }

  /** Parameters given as strings, or not given at all, never make `paginate` throw. */
  lemma PagingOfStrings(q: ParamMap)
    requires "page" in q ==> q["page"].Str?
    requires "limit" in q ==> q["limit"].Str?
    ensures Paging(q) == Ok((PageNumber(q), PageSize(q)))
  {
  }

  /** `?page[toString]=1` makes `paginate` throw, alone or as an element of an array. */
  lemma PagingToStringKey(q: ParamMap, p: Value)
    requires p == Obj(map["toString" := Str("1")])
    ensures Paging(q["page" := p]) == Err(NoPrimitive("page"))
    ensures Paging(q["page" := Arr([Str("2"), p])]) == Err(NoPrimitive("page"))
  {
    assert ToPrimitiveThrows([Str("2"), p][1]);
  }

  /** `(page - 1) * limit`: the results before the requested page. */
  function SkipCount(q: ParamMap): int {
    (PageNumber(q) - 1) * PageSize(q)
  }

  /** Without `page` and `limit`, the first 100 results are asked for. */
  lemma PaginateDefaults(q: ParamMap)
    requires "page" !in q && "limit" !in q
    ensures SkipCount(q) == 0 && PageSize(q) == 100
  {
  }

  /** `page=3&limit=10` skips the first 20 results and asks for 10. */
  lemma PaginateThirdPage(q: ParamMap)
    requires Param(q, "page") == Some(Str("3")) && Param(q, "limit") == Some(Str("10"))
    ensures SkipCount(q) == 20 && PageSize(q) == 10
  {
    assert NumberCoercion.DigitsValue("3") == 3;
    assert NumberCoercion.DigitsValue("10") == 10 by {
      assert "10"[..1] == "1";
      assert NumberCoercion.DigitsValue("1") == 1;
    }
  }

  /** A numeral of a non-zero integer, negative ones included, is taken as it is. */
  lemma PageSizeKeepsNumeral(q: ParamMap, n: int)
    requires n != 0 && Param(q, "limit") == Some(Str(NumberCoercion.ShowInt(n)))
    ensures PageSize(q) == n
  {
    NumberCoercion.StringToNumberShowInt(n);
  }

  /**
   * The builder: `query` is replaced by every refinement, `queryString` is
   * fixed at construction and never assigned again.
   */
  class APIFeatures {
    var query: seq<Refinement>
    const queryString: ParamMap

    constructor(query: seq<Refinement>, queryString: ParamMap)
      ensures this.query == query && this.queryString == queryString
    {
      this.query := query;
      this.queryString := queryString;
    }

    /**
     * Deletes the excluded keys from a copy of the parameters, rewrites the
     * comparison tokens and adds the result as a `find` condition.
     */
    method Filter() returns (self: APIFeatures)
      modifies this
      ensures self == this
      ensures query == old(query) + [Find(FilterConditions(queryString))]
    {
      var queryObject := queryString;
      var i := 0;
      while i < |ExcludedFields|
        invariant 0 <= i <= |ExcludedFields|
        invariant forall k :: k in queryObject <==> k in queryString && k !in ExcludedFields[..i]
        invariant forall k :: k in queryObject ==> queryObject[k] == queryString[k]
      {
        queryObject := queryObject - {ExcludedFields[i]};
        i := i + 1;
      }
      assert ExcludedFields[..i] == ExcludedFields;
      assert queryObject == WithoutExcluded(queryString);
      query := query + [Find(RewriteFields(queryObject))];
      self := this;
    }

    /** Adds the sort order, or throws and leaves the query as it was. */
    method Sort() returns (r: Result<APIFeatures, TypeError>)
      modifies this
      ensures SortArgument(queryString).Ok? ==>
        r == Ok(this) && query == old(query) + [SortBy(SortArgument(queryString).value)]
      ensures SortArgument(queryString).Err? ==>
        r == Err(SortArgument(queryString).error) && query == old(query)
    {
      var sortBy := ListArgument(queryString, "sort", DefaultSort);
      if sortBy.Err? {
        return Err(sortBy.error);
      }
      query := query + [SortBy(sortBy.value)];
      r := Ok(this);
    }

    /** Adds the projection, or throws and leaves the query as it was. */
    method LimitFields() returns (r: Result<APIFeatures, TypeError>)
      modifies this
      ensures SelectArgument(queryString).Ok? ==>
        r == Ok(this) && query == old(query) + [Select(SelectArgument(queryString).value)]
      ensures SelectArgument(queryString).Err? ==>
        r == Err(SelectArgument(queryString).error) && query == old(query)
    {
      var fields := ListArgument(queryString, "fields", DefaultSelect);
      if fields.Err? {
        return Err(fields.error);
      }
      query := query + [Select(fields.value)];
      r := Ok(this);
    }

    /**
     * Adds the number of results to skip and the page size, or throws and
     * leaves the query as it was.
     */
    method Paginate() returns (r: Result<APIFeatures, TypeError>)
      modifies this
      ensures Paging(queryString).Ok? ==>
        r == Ok(this) && query == old(query) + [Skip(SkipCount(queryString)), Limit(PageSize(queryString))]
      ensures Paging(queryString).Err? ==>
        r == Err(Paging(queryString).error) && query == old(query)
    {
      if CoercionThrows(queryString, "page") {
        return Err(NoPrimitive("page"));
      }
      var page := NumberOr(Param(queryString, "page"), DefaultPage);
      if CoercionThrows(queryString, "limit") {
        return Err(NoPrimitive("limit"));
      }
      var limit := NumberOr(Param(queryString, "limit"), DefaultLimit);
      var skip := (page - 1) * limit;
      query := query + [Skip(skip), Limit(limit)];
      r := Ok(this);
    }
  }
}
