/**
 * The two query handlers of the tour controller: the `aliasTopTours`
 * middleware, which prefills the query parameters, and `getAllTours`, which
 * runs the builder chain on them.
 */
module TourController {
  import opened Wrappers
  import opened QueryParams
  import opened ApiFeatures
  import CommaList
  import NumberCoercion

  /** The part of the incoming request the handlers use: its query parameters. */
  class Request {
    var query: ParamMap

    constructor(query: ParamMap)
      ensures this.query == query
    {
      this.query := query;
    }
  }

  /** The `next` callback of the middleware chain, counting its calls. */
  class Next {
    var calls: nat

    constructor()
      ensures calls == 0
    {
      calls := 0;
    }

    method Call()
      modifies this
      ensures calls == old(calls) + 1
    {
      calls := calls + 1;
    }
  }

  const TopLimit: string := "5"
  const TopSort: string := "-ratingsAverage,price"
  const TopFields: string := "name,price,ratingsAverage,summary,difficulty"

  /** The parameters after the alias: three keys overwritten, every other key kept. */
  function TopTours(q: ParamMap): (r: ParamMap)
    ensures "limit" in r && r["limit"] == Str(TopLimit)
    ensures "sort" in r && r["sort"] == Str(TopSort)
    ensures "fields" in r && r["fields"] == Str(TopFields)
    ensures forall k :: k != "limit" && k != "sort" && k != "fields" ==>
      (k in r <==> k in q) && (k in q ==> r[k] == q[k])
  {
    q["limit" := Str(TopLimit)]["sort" := Str(TopSort)]["fields" := Str(TopFields)]
  }

  /** `aliasTopTours`: overwrites `limit`, `sort` and `fields` in place, then calls `next` once. */
  method AliasTopTours(request: Request, next: Next)
    modifies request, next
    ensures request.query == TopTours(old(request.query))
    ensures next.calls == old(next.calls) + 1
  {
    request.query := request.query["limit" := Str(TopLimit)];
    request.query := request.query["sort" := Str(TopSort)];
    request.query := request.query["fields" := Str(TopFields)];
    next.Call();
  }

  /**
   * The refinements `getAllTours` requests on `Tour.find()`, in chain order,
   * or the error that the chain throws.
   */
  function BuildPlan(q: ParamMap): Result<seq<Refinement>, TypeError>
  {
    var sortBy :- SortArgument(q);
    var fields :- SelectArgument(q);
    var paging :- Paging(q);
    Ok([Find(map[]), Find(FilterConditions(q)), SortBy(sortBy), Select(fields),
        Skip(SkipCount(q)), Limit(PageSize(q))])
  }

  /**
   * `getAllTours`: builds the query with `filter`, `sort`, `limitFields` and
   * `paginate` in that order; a thrown error is caught and reported.
   */
  method GetAllTours(request: Request) returns (r: Result<seq<Refinement>, TypeError>)
    ensures r == BuildPlan(request.query)
    ensures r.Ok? <==>
      SortArgument(request.query).Ok? && SelectArgument(request.query).Ok? && Paging(request.query).Ok?
    ensures r.Ok? ==> r.value == [Find(map[]), Find(FilterConditions(request.query)),
      SortBy(SortArgument(request.query).value), Select(SelectArgument(request.query).value),
      Skip(SkipCount(request.query)), Limit(PageSize(request.query))]
  {
    var q := request.query;
    var features := new APIFeatures([Find(map[])], q);
    var filtered := features.Filter();
    var sorted := filtered.Sort();
    if sorted.Err? {
      return Err(sorted.error);
    }
    var limited := sorted.value.LimitFields();
    if limited.Err? {
      return Err(limited.error);
    }
    var paginated := limited.value.Paginate();
    if paginated.Err? {
      return Err(paginated.error);
    }
    ChainOfSix(Find(map[]), Find(FilterConditions(q)), SortBy(SortArgument(q).value),
      Select(SelectArgument(q).value), Skip(SkipCount(q)), Limit(PageSize(q)));
    r := Ok(paginated.value.query);
  }

  /**
   * The chain throws exactly when `sort` or `fields` is an array or an object,
   * or when `page` or `limit` cannot be converted to a primitive value; the
   * first step to throw decides the error.
   */
  lemma PlanErrors(q: ParamMap)
    ensures BuildPlan(q).Err? <==>
      (Truthy(Param(q, "sort")) && !q["sort"].Str?) || (Truthy(Param(q, "fields")) && !q["fields"].Str?) ||
      CoercionThrows(q, "page") || CoercionThrows(q, "limit")
    ensures SortArgument(q).Err? ==> BuildPlan(q) == Err(SortArgument(q).error)
    ensures SortArgument(q).Ok? && SelectArgument(q).Err? ==> BuildPlan(q) == Err(SelectArgument(q).error)
    ensures SortArgument(q).Ok? && SelectArgument(q).Ok? && Paging(q).Err? ==> BuildPlan(q) == Err(Paging(q).error)
  {
  }

  /** The refinements appended one call at a time form the chain's list. */
  lemma ChainOfSix<T>(a: T, b: T, c: T, d: T, e: T, f: T)
    ensures [a] + [b] + [c] + [d] + [e, f] == [a, b, c, d, e, f]
  {
  }

  /** The alias does not touch the filter: the three keys it sets are all excluded. */
  lemma AliasKeepsFilter(q: ParamMap)
    ensures FilterConditions(TopTours(q)) == FilterConditions(q)
  {
    assert WithoutExcluded(TopTours(q)) == WithoutExcluded(q);
  }

  /**
   * After the alias the builder sorts by `-ratingsAverage price`, selects the
   * five summary fields, and pages by five.
   */
  lemma TopToursPlan(q: ParamMap)
    ensures CoercionThrows(q, "page") ==> BuildPlan(TopTours(q)) == Err(NoPrimitive("page"))
    ensures !CoercionThrows(q, "page") ==> BuildPlan(TopTours(q)) == Ok([
      Find(map[]), Find(FilterConditions(q)),
      SortBy("-ratingsAverage price"),
      Select("name price ratingsAverage summary difficulty"),
      Skip((PageNumber(q) - 1) * 5), Limit(5)])
  {
    var t := TopTours(q);
    TopSortArgument(q);
    TopSelectArgument(q);
    AliasKeepsFilter(q);
    TopToursPaging(q);
  }

  /** The space list of a comma list built from pieces without commas or spaces. */
  lemma SpaceListOfPieces(parts: seq<string>)
    requires |parts| >= 1
    requires forall k :: 0 <= k < |parts| ==> ',' !in parts[k]
    ensures SpaceList(CommaList.Join(parts, ',')) == CommaList.Join(parts, ' ')
  {
    CommaList.SplitJoin(parts, ',');
  }

  lemma TopSortArgument(q: ParamMap)
    ensures SortArgument(TopTours(q)) == Ok("-ratingsAverage price")
  {
    var parts := TopSortPieces();
    SpaceListOfPieces(parts);
  }

  lemma TopSelectArgument(q: ParamMap)
    ensures SelectArgument(TopTours(q)) == Ok("name price ratingsAverage summary difficulty")
  {
    var parts := TopFieldsPieces();
    SpaceListOfPieces(parts);
  }

  lemma TopSortPieces() returns (parts: seq<string>)
    ensures |parts| >= 1 && forall k :: 0 <= k < |parts| ==> ',' !in parts[k]
    ensures CommaList.Join(parts, ',') == TopSort
    ensures CommaList.Join(parts, ' ') == "-ratingsAverage price"
  {
    parts := ["-ratingsAverage", "price"];
    JoinTwo(parts[0], parts[1], ',');
    JoinTwo(parts[0], parts[1], ' ');
  }

  lemma TopFieldsPieces() returns (parts: seq<string>)
    ensures |parts| >= 1 && forall k :: 0 <= k < |parts| ==> ',' !in parts[k]
    ensures CommaList.Join(parts, ',') == TopFields
    ensures CommaList.Join(parts, ' ') == "name price ratingsAverage summary difficulty"
  {
    parts := ["name", "price", "ratingsAverage", "summary", "difficulty"];
    JoinFive(parts, ',');
    JoinFive(parts, ' ');
    FieldsCommaText();
    FieldsSpaceText();
  }

  lemma FieldsCommaText()
    ensures "name" + [','] + "price" + [','] + "ratingsAverage" + [','] + "summary" + [','] + "difficulty" == TopFields
  {
    assert "name" + [','] + "price" == "name,price";
    assert "name,price" + [','] + "ratingsAverage" == "name,price,ratingsAverage";
    assert "name,price,ratingsAverage" + [','] + "summary" == "name,price,ratingsAverage,summary";
  }

  lemma FieldsSpaceText()
    ensures "name" + [' '] + "price" + [' '] + "ratingsAverage" + [' '] + "summary" + [' '] + "difficulty" ==
      "name price ratingsAverage summary difficulty"
  {
    assert "name" + [' '] + "price" == "name price";
    assert "name price" + [' '] + "ratingsAverage" == "name price ratingsAverage";
    assert "name price ratingsAverage" + [' '] + "summary" == "name price ratingsAverage summary";
  }

  lemma JoinTwo(a: string, b: string, d: char)
    ensures CommaList.Join([a, b], d) == a + [d] + b
  {
    assert [a, b][1..] == [b];
  }

  lemma JoinFive(parts: seq<string>, d: char)
    requires |parts| == 5
    ensures CommaList.Join(parts, d) ==
      parts[0] + [d] + parts[1] + [d] + parts[2] + [d] + parts[3] + [d] + parts[4]
  {
    var j4 := CommaList.Join(parts[4..], d);
    assert j4 == parts[4];
    var j3 := CommaList.Join(parts[3..], d);
    assert parts[3..][1..] == parts[4..];
    assert j3 == parts[3] + [d] + parts[4];
    var j2 := CommaList.Join(parts[2..], d);
    assert parts[2..][1..] == parts[3..];
    assert j2 == parts[2] + [d] + j3;
    var j1 := CommaList.Join(parts[1..], d);
    assert parts[1..][1..] == parts[2..];
    assert j1 == parts[1] + [d] + j2;
    assert CommaList.Join(parts, d) == parts[0] + [d] + j1;
  }

  lemma TopToursPaging(q: ParamMap)
    ensures PageSize(TopTours(q)) == 5 && PageNumber(TopTours(q)) == PageNumber(q)
    ensures SkipCount(TopTours(q)) == (PageNumber(q) - 1) * 5
    ensures Paging(TopTours(q)).Ok? <==> !CoercionThrows(q, "page")
  {
    assert NumberCoercion.DigitsValue("5") == 5;
    assert Param(TopTours(q), "page") == Param(q, "page");
  }

}
