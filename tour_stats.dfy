/**
 * The statistics pipeline of `getTourStats`: `$match` keeps the tours rated
 * 4.5 or more, `$group` gathers them by upper-cased difficulty with a count,
 * sums, a minimum and a maximum, and `$sort` orders the groups by average
 * price.  Ratings are in tenths of a star and prices are whole numbers; an
 * average is kept as a sum and a count, and compared by cross-multiplying.
 */
module TourStats {

  /** A tour document: its name and the fields the pipeline reads. */
  datatype Tour = Tour(
    name: string,
    difficulty: string,
    ratingsAverage: int,  // tenths of a star
    ratingsQuantity: int,
    price: int)

  /** 4.5 stars. */
  const MinRating: int := 45

  predicate Qualifies(t: Tour) {
    t.ratingsAverage >= MinRating
  }

  // ---------------------------------------------------------------------
  // $match
  // ---------------------------------------------------------------------

  /** `$match: { ratingsAverage: { $gte: 4.5 } }`: every qualifying tour, and only those. */
  function Match(tours: seq<Tour>): (r: seq<Tour>)
    ensures forall i :: 0 <= i < |r| ==> Qualifies(r[i])
  {
    if tours == [] then []
    else (if Qualifies(tours[0]) then [tours[0]] else []) + Match(tours[1..])
  }

  /** Tours that all qualify pass unchanged. */
  lemma {:induction false} MatchAllQualify(tours: seq<Tour>)
    requires forall i :: 0 <= i < |tours| ==> Qualifies(tours[i])
    ensures Match(tours) == tours
  {
    if tours != [] {
      MatchAllQualify(tours[1..]);
      assert tours == [tours[0]] + tours[1..];
    }
  }

  /** A qualifying tour is kept as often as it occurs, and any other is dropped. */
  lemma {:induction false} MatchCounts(tours: seq<Tour>)
    ensures forall t :: multiset(Match(tours))[t] == if Qualifies(t) then multiset(tours)[t] else 0
  {
    if tours != [] {
      assert tours == [tours[0]] + tours[1..];
      MatchCounts(tours[1..]);
    }
  }

  /** The stage keeps the order of the documents: it works piece by piece. */
  lemma {:induction false} MatchAppend(a: seq<Tour>, b: seq<Tour>)
    ensures Match(a + b) == Match(a) + Match(b)
  {
    if a == [] {
      assert a + b == b;
    } else {
      var head := if Qualifies(a[0]) then [a[0]] else [];
      assert (a + b)[1..] == a[1..] + b;
      MatchAppend(a[1..], b);
      calc {
        Match(a + b);
        head + Match(a[1..] + b);
        head + (Match(a[1..]) + Match(b));
        (head + Match(a[1..])) + Match(b);
        Match(a) + Match(b);
      }
    }
  }

  // ---------------------------------------------------------------------
  // $toUpper
  // ---------------------------------------------------------------------

  /** `$toUpper` on one ASCII character. */
  function UpperChar(c: char): char {
    if 'a' <= c <= 'z' then (c as int - 32) as char else c
  }

  function ToUpper(s: string): string {
    seq(|s|, i requires 0 <= i < |s| => UpperChar(s[i]))
  }

  /** The same character, or one letter in its two cases. */
  predicate SameLetter(c: char, d: char) {
    c == d ||
    ('a' <= c <= 'z' && d as int == c as int - 32) ||
    ('A' <= c <= 'Z' && d as int == c as int + 32)
  }

  predicate SameIgnoringCase(a: string, b: string) {
    |a| == |b| && forall i :: 0 <= i < |a| ==> SameLetter(a[i], b[i])
  }

  /** Two strings have the same upper-case form exactly when they differ only in letter case. */
  lemma ToUpperSameIff(a: string, b: string)
    ensures ToUpper(a) == ToUpper(b) <==> SameIgnoringCase(a, b)
  {
    if ToUpper(a) == ToUpper(b) {
      forall i | 0 <= i < |a|
        ensures SameLetter(a[i], b[i])
      {
        assert ToUpper(a)[i] == ToUpper(b)[i];
      }
    }
    if SameIgnoringCase(a, b) {
      assert forall i :: 0 <= i < |a| ==> ToUpper(a)[i] == ToUpper(b)[i];
    }
  }

  /** The upper-case form has no lower-case letter, so a second pass changes nothing. */
  lemma ToUpperIdempotent(s: string)
    ensures forall i :: 0 <= i < |s| ==> !('a' <= ToUpper(s)[i] <= 'z')
    ensures ToUpper(ToUpper(s)) == ToUpper(s)
  {
    assert forall i :: 0 <= i < |s| ==> ToUpper(ToUpper(s))[i] == ToUpper(s)[i];
  }

  // ---------------------------------------------------------------------
  // $group
  // ---------------------------------------------------------------------

  /**
   * One output document of `$group`: `_id`, `numTours`, `numOfRatings`, the
   * sums behind `avgRating` and `avgPrice`, `minPrice` and `maxPrice`.
   */
  datatype Group = Group(
    id: string,
    numTours: int,
    numOfRatings: int,
    sumRatings: int,
    sumPrice: int,
    minPrice: int,
    maxPrice: int)

  /** `_id: { $toUpper: '$difficulty' }`. */
  function Key(t: Tour): string {
    ToUpper(t.difficulty)
  }

  function Min(a: int, b: int): int {
    if a <= b then a else b
  }

  function Max(a: int, b: int): int {
    if a <= b then b else a
  }

  /** The accumulators after the first tour of a group. */
  function First(t: Tour): Group {
    Group(Key(t), 1, t.ratingsQuantity, t.ratingsAverage, t.price, t.price, t.price)
  }

  /** The accumulators after one more tour: `$sum`, `$avg`, `$min` and `$max`. */
  function Absorb(g: Group, t: Tour): Group {
    g.(numTours := g.numTours + 1,
       numOfRatings := g.numOfRatings + t.ratingsQuantity,
       sumRatings := g.sumRatings + t.ratingsAverage,
       sumPrice := g.sumPrice + t.price,
       minPrice := Min(g.minPrice, t.price),
       maxPrice := Max(g.maxPrice, t.price))
  }

  /** The position of the group with `_id` equal to `key`, or -1. */
  function IndexOf(groups: seq<Group>, key: string): (i: int)
    ensures -1 <= i < |groups|
    ensures i == -1 <==> forall j :: 0 <= j < |groups| ==> groups[j].id != key
    ensures 0 <= i ==> groups[i].id == key
  {
    if groups == [] then -1
    else if groups[0].id == key then 0
    else
      var j := IndexOf(groups[1..], key);
      assert forall k :: 0 < k < |groups| ==> groups[k] == groups[1..][k - 1];
      if j < 0 then -1 else j + 1
  }

  /** One tour enters its group, which is opened when it is the first of its key. */
  function AddTour(groups: seq<Group>, t: Tour): seq<Group> {
    var i := IndexOf(groups, Key(t));
    if i < 0 then groups + [First(t)] else groups[i := Absorb(groups[i], t)]
  }

  /** `$group` over the documents in the order they arrive. */
  function GroupAll(tours: seq<Tour>): seq<Group> {
    if tours == [] then []
    else AddTour(GroupAll(tours[..|tours| - 1]), tours[|tours| - 1])
  }

  // A reference for the groups, one key at a time.

  /** The tours whose key is `key`, in order. */
  function Members(tours: seq<Tour>, key: string): seq<Tour> {
    if tours == [] then []
    else (if Key(tours[0]) == key then [tours[0]] else []) + Members(tours[1..], key)
  }

  /** The members of a key are the tours of that key. */
  lemma {:induction false} MembersIn(tours: seq<Tour>, key: string)
    ensures forall t :: t in Members(tours, key) <==> t in tours && Key(t) == key
  {
    if tours != [] {
      assert tours == [tours[0]] + tours[1..];
      MembersIn(tours[1..], key);
    }
  }

  lemma {:induction false} MembersNone(tours: seq<Tour>, key: string)
    requires forall t :: t in tours ==> Key(t) != key
    ensures Members(tours, key) == []
  {
    if tours != [] {
      assert tours[0] in tours;
      assert forall t :: t in tours[1..] ==> t in tours;
      MembersNone(tours[1..], key);
    }
  }

  datatype Field = Rating | Quantity | Price

  function FieldOf(t: Tour, f: Field): int {
    match f
    case Rating => t.ratingsAverage
    case Quantity => t.ratingsQuantity
    case Price => t.price
  }

  /** The sum of one field over the tours. */
  function Total(ms: seq<Tour>, f: Field): int {
    if ms == [] then 0 else Total(ms[..|ms| - 1], f) + FieldOf(ms[|ms| - 1], f)
  }

  /** The lowest price among the tours. */
  function MinPrice(ms: seq<Tour>): int
    requires ms != []
  {
    if |ms| == 1 then ms[0].price else Min(MinPrice(ms[..|ms| - 1]), ms[|ms| - 1].price)
  }

  /** The highest price among the tours. */
  function MaxPrice(ms: seq<Tour>): int
    requires ms != []
  {
    if |ms| == 1 then ms[0].price else Max(MaxPrice(ms[..|ms| - 1]), ms[|ms| - 1].price)
  }

  /** `MinPrice` and `MaxPrice` bound every price and are the prices of some tours. */
  lemma {:induction false} PriceExtremes(ms: seq<Tour>)
    requires ms != []
    ensures forall i :: 0 <= i < |ms| ==> MinPrice(ms) <= ms[i].price <= MaxPrice(ms)
    ensures exists i :: 0 <= i < |ms| && MinPrice(ms) == ms[i].price
    ensures exists i :: 0 <= i < |ms| && MaxPrice(ms) == ms[i].price
    decreases |ms|
  {
    if |ms| > 1 {
      var rest := ms[..|ms| - 1];
      PriceExtremes(rest);
      assert forall i :: 0 <= i < |rest| ==> rest[i] == ms[i];
      var lo :| 0 <= lo < |rest| && MinPrice(rest) == rest[lo].price;
      var hi :| 0 <= hi < |rest| && MaxPrice(rest) == rest[hi].price;
      if MinPrice(ms) == ms[|ms| - 1].price {
      } else {
        assert MinPrice(ms) == ms[lo].price;
      }
      if MaxPrice(ms) == ms[|ms| - 1].price {
      } else {
        assert MaxPrice(ms) == ms[hi].price;
      }
    } else {
      assert MinPrice(ms) == ms[0].price && MaxPrice(ms) == ms[0].price;
    }
  }

  /** The group that the accumulators describe for the tours `ms` of key `key`. */
  function Summarize(key: string, ms: seq<Tour>): Group
    requires ms != []
  {
    Group(key, |ms|, Total(ms, Quantity), Total(ms, Rating), Total(ms, Price), MinPrice(ms), MaxPrice(ms))
  }

  function Ids(groups: seq<Group>): set<string> {
    set g | g in groups :: g.id
  }

  /** No two groups share an `_id`. */
  predicate OneGroupPerKey(groups: seq<Group>) {
    forall i, j :: 0 <= i < j < |groups| ==> groups[i].id != groups[j].id
  }

  /** Each group is the summary of the tours of its key, of which there is at least one. */
  predicate Summaries(groups: seq<Group>, tours: seq<Tour>) {
    forall i :: 0 <= i < |groups| ==>
      Members(tours, groups[i].id) != [] &&
      groups[i] == Summarize(groups[i].id, Members(tours, groups[i].id))
  }

  /** The key of every tour has a group. */
  predicate Covers(groups: seq<Group>, tours: seq<Tour>) {
    forall t :: t in tours ==> Key(t) in Ids(groups)
  }

  /** `groups` is the `$group` output for `tours`. */
  predicate GroupsOf(groups: seq<Group>, tours: seq<Tour>) {
    OneGroupPerKey(groups) && Summaries(groups, tours) && Covers(groups, tours)
  }

  lemma {:induction false} MembersSnoc(tours: seq<Tour>, t: Tour, key: string)
    ensures Members(tours + [t], key) == Members(tours, key) + (if Key(t) == key then [t] else [])
  {
    if tours == [] {
      assert tours + [t] == [t];
      assert [t][1..] == [];
    } else {
      var tail := tours[1..];
      var head := if Key(tours[0]) == key then [tours[0]] else [];
      var last := if Key(t) == key then [t] else [];
      assert (tours + [t])[1..] == tail + [t];
      MembersSnoc(tail, t, key);
      calc {
        Members(tours + [t], key);
        head + Members(tail + [t], key);
        head + (Members(tail, key) + last);
        (head + Members(tail, key)) + last;
        Members(tours, key) + last;
      }
    }
  }

  lemma SummarizeOne(t: Tour)
    ensures Summarize(Key(t), [t]) == First(t)
  {
    assert [t][..0] == [];
    assert Total([t], Quantity) == t.ratingsQuantity;
    assert Total([t], Rating) == t.ratingsAverage;
    assert Total([t], Price) == t.price;
  }

  lemma SummarizeSnoc(key: string, ms: seq<Tour>, t: Tour)
    requires ms != []
    ensures Summarize(key, ms + [t]) == Absorb(Summarize(key, ms), t)
  {
    var ms' := ms + [t];
    assert ms'[..|ms'| - 1] == ms;
  }

  lemma IdsSnoc(groups: seq<Group>, g: Group)
    ensures Ids(groups + [g]) == Ids(groups) + {g.id}
  {
    var r := groups + [g];
    forall id | id in Ids(r)
      ensures id in Ids(groups) || id == g.id
    {
      var x :| x in r && x.id == id;
      if x != g {
        assert x in groups;
      }
    }
    forall id | id in Ids(groups)
      ensures id in Ids(r)
    {
      var x :| x in groups && x.id == id;
      assert x in r;
    }
    assert g in r;
  }

  lemma IdsUpdate(groups: seq<Group>, i: nat, g: Group)
    requires i < |groups| && g.id == groups[i].id
    ensures Ids(groups[i := g]) == Ids(groups)
  {
    var r := groups[i := g];
    forall id | id in Ids(r)
      ensures id in Ids(groups)
    {
      var x :| x in r && x.id == id;
      var j :| 0 <= j < |r| && r[j] == x;
      assert groups[j] in groups && groups[j].id == id;
    }
    forall id | id in Ids(groups)
      ensures id in Ids(r)
    {
      var x :| x in groups && x.id == id;
      var j :| 0 <= j < |groups| && groups[j] == x;
      assert r[j] in r && r[j].id == id;
    }
  }

  /** A tour of a new key opens a group at the end. */
  lemma AddTourNew(groups: seq<Group>, tours: seq<Tour>, t: Tour)
    requires GroupsOf(groups, tours)
    requires forall j :: 0 <= j < |groups| ==> groups[j].id != Key(t)
    ensures GroupsOf(groups + [First(t)], tours + [t])
  {
    var k := Key(t);
    var tours' := tours + [t];
    var out := groups + [First(t)];
    forall x | x in tours
      ensures Key(x) != k
    {
      assert Key(x) in Ids(groups);
    }
    MembersNone(tours, k);
    assert OneGroupPerKey(out);
    assert Summaries(out, tours') by {
      forall j | 0 <= j < |out|
        ensures Members(tours', out[j].id) != [] &&
          out[j] == Summarize(out[j].id, Members(tours', out[j].id))
      {
        var id := out[j].id;
        MembersSnoc(tours, t, id);
        if j == |groups| {
          assert Members(tours', k) == [t];
          SummarizeOne(t);
        } else {
          assert out[j] == groups[j] && id != k;
          assert Members(tours', id) == Members(tours, id);
        }
      }
    }
    IdsSnoc(groups, First(t));
    assert Covers(out, tours');
  }

  /** After a tour joins group `i`, group `j` still summarises the tours of its key. */
  lemma AddTourFoundAt(groups: seq<Group>, tours: seq<Tour>, t: Tour, i: nat, j: nat)
    requires GroupsOf(groups, tours)
    requires i < |groups| && groups[i].id == Key(t) && j < |groups|
    ensures var out := groups[i := Absorb(groups[i], t)];
      Members(tours + [t], out[j].id) != [] &&
      out[j] == Summarize(out[j].id, Members(tours + [t], out[j].id))
  {
    var k := Key(t);
    var tours' := tours + [t];
    var id := groups[j].id;
    MembersSnoc(tours, t, id);
    if j == i {
      assert Members(tours', k) == Members(tours, k) + [t];
      SummarizeSnoc(k, Members(tours, k), t);
    } else {
      assert id != k;
      assert Members(tours', id) == Members(tours, id);
    }
  }

  /** A tour of a known key joins the group of that key. */
  lemma AddTourFound(groups: seq<Group>, tours: seq<Tour>, t: Tour, i: nat)
    requires GroupsOf(groups, tours)
    requires i < |groups| && groups[i].id == Key(t)
    ensures GroupsOf(groups[i := Absorb(groups[i], t)], tours + [t])
  {
    var tours' := tours + [t];
    var out := groups[i := Absorb(groups[i], t)];
    assert OneGroupPerKey(out) by {
      assert forall j :: 0 <= j < |out| ==> out[j].id == groups[j].id;
    }
    assert Summaries(out, tours') by {
      forall j | 0 <= j < |out|
        ensures Members(tours', out[j].id) != [] &&
          out[j] == Summarize(out[j].id, Members(tours', out[j].id))
      {
        AddTourFoundAt(groups, tours, t, i, j);
      }
    }
    assert Covers(out, tours') by {
      IdsUpdate(groups, i, Absorb(groups[i], t));
    }
  }

  /** Adding one tour keeps the groups the summaries of their keys. */
  lemma AddTourSpec(groups: seq<Group>, tours: seq<Tour>, t: Tour)
    requires GroupsOf(groups, tours)
    ensures GroupsOf(AddTour(groups, t), tours + [t])
  {
    var i := IndexOf(groups, Key(t));
    if i < 0 {
      AddTourNew(groups, tours, t);
    } else {
      AddTourFound(groups, tours, t, i);
    }
  }

  /** The fold computes the groups of the reference: `$group` is correct. */
  lemma {:induction false} GroupAllSpec(tours: seq<Tour>)
    ensures GroupsOf(GroupAll(tours), tours)
    decreases |tours|
  {
    if tours != [] {
      var init := tours[..|tours| - 1];
      GroupAllSpec(init);
      AddTourSpec(GroupAll(init), init, tours[|tours| - 1]);
      assert init + [tours[|tours| - 1]] == tours;
    }
  }

  lemma {:induction false} TotalAtLeast(ms: seq<Tour>, f: Field, lo: int)
    requires forall i :: 0 <= i < |ms| ==> lo <= FieldOf(ms[i], f)
    ensures |ms| * lo <= Total(ms, f)
    decreases |ms|
  {
    if ms != [] {
      var rest := ms[..|ms| - 1];
      assert forall i :: 0 <= i < |rest| ==> rest[i] == ms[i];
      TotalAtLeast(rest, f, lo);
      assert |ms| * lo == |rest| * lo + lo;
    }
  }

  lemma {:induction false} TotalAtMost(ms: seq<Tour>, f: Field, hi: int)
    requires forall i :: 0 <= i < |ms| ==> FieldOf(ms[i], f) <= hi
    ensures Total(ms, f) <= |ms| * hi
    decreases |ms|
  {
    if ms != [] {
      var rest := ms[..|ms| - 1];
      assert forall i :: 0 <= i < |rest| ==> rest[i] == ms[i];
      TotalAtMost(rest, f, hi);
      assert |ms| * hi == |rest| * hi + hi;
    }
  }

  /** `minPrice <= avgPrice <= maxPrice`, with the average as sum over count. */
  lemma SummaryPriceBounds(key: string, ms: seq<Tour>)
    requires ms != []
    ensures var g := Summarize(key, ms);
      g.minPrice * g.numTours <= g.sumPrice <= g.maxPrice * g.numTours
  {
    var lo, hi := MinPrice(ms), MaxPrice(ms);
    PriceExtremes(ms);
    TotalAtLeast(ms, Price, lo);
    TotalAtMost(ms, Price, hi);
    assert lo * |ms| == |ms| * lo && hi * |ms| == |ms| * hi;
  }

  /** A group of tours rated 4.5 or more has an average rating of 4.5 or more. */
  lemma SummaryRatingFloor(key: string, ms: seq<Tour>)
    requires ms != []
    requires forall i :: 0 <= i < |ms| ==> Qualifies(ms[i])
    ensures var g := Summarize(key, ms); g.sumRatings >= MinRating * g.numTours
  {
    TotalAtLeast(ms, Rating, MinRating);
  }

  // ---------------------------------------------------------------------
  // The number of tours over all groups
  // ---------------------------------------------------------------------

  function TotalTours(groups: seq<Group>): int {
    if groups == [] then 0 else groups[0].numTours + TotalTours(groups[1..])
  }

  lemma {:induction false} TotalToursSnoc(groups: seq<Group>, g: Group)
    ensures TotalTours(groups + [g]) == TotalTours(groups) + g.numTours
  {
    if groups == [] {
      assert groups + [g] == [g];
      assert [g][1..] == [];
    } else {
      assert (groups + [g])[1..] == groups[1..] + [g];
      TotalToursSnoc(groups[1..], g);
    }
  }

  lemma {:induction false} TotalToursUpdate(groups: seq<Group>, i: nat, g: Group)
    requires i < |groups|
    ensures TotalTours(groups[i := g]) == TotalTours(groups) - groups[i].numTours + g.numTours
  {
    if i == 0 {
      assert groups[i := g][1..] == groups[1..];
    } else {
      assert groups[i := g][1..] == groups[1..][i - 1 := g];
      TotalToursUpdate(groups[1..], i - 1, g);
    }
  }

  /** Every tour is counted once, in exactly one group. */
  lemma {:induction false} GroupAllCount(tours: seq<Tour>)
    ensures TotalTours(GroupAll(tours)) == |tours|
    decreases |tours|
  {
    if tours != [] {
      var init := tours[..|tours| - 1];
      var t := tours[|tours| - 1];
      var groups := GroupAll(init);
      GroupAllCount(init);
      var i := IndexOf(groups, Key(t));
      if i < 0 {
        TotalToursSnoc(groups, First(t));
      } else {
        TotalToursUpdate(groups, i, Absorb(groups[i], t));
      }
    }
  }

  // ---------------------------------------------------------------------
  // $sort: { avgPrice: 1 }
  // ---------------------------------------------------------------------

  /** `a.avgPrice <= b.avgPrice`, cross-multiplied. */
  predicate AvgPriceLe(a: Group, b: Group) {
    a.sumPrice * b.numTours <= b.sumPrice * a.numTours
  }

  predicate SortedByAvgPrice(groups: seq<Group>) {
    forall i :: 0 < i < |groups| ==> AvgPriceLe(groups[i - 1], groups[i])
  }

  /** Puts `g` in front of the first group whose average price is not lower. */
  function Insert(g: Group, sorted: seq<Group>): (r: seq<Group>)
    ensures multiset(r) == multiset(sorted) + multiset{g}
    ensures |r| == |sorted| + 1
    ensures r[0] == g || (sorted != [] && r[0] == sorted[0])
  {
    if sorted == [] then [g]
    else if AvgPriceLe(g, sorted[0]) then [g] + sorted
    else
      assert sorted == [sorted[0]] + sorted[1..];
      [sorted[0]] + Insert(g, sorted[1..])
  }

  lemma {:induction false} InsertSorted(g: Group, sorted: seq<Group>)
    requires SortedByAvgPrice(sorted)
    ensures SortedByAvgPrice(Insert(g, sorted))
  {
    if sorted != [] && !AvgPriceLe(g, sorted[0]) {
      var tail := sorted[1..];
      assert SortedByAvgPrice(tail) by {
        assert forall k :: 0 <= k < |tail| ==> tail[k] == sorted[k + 1];
      }
      InsertSorted(g, tail);
      var rest := Insert(g, tail);
      var r := [sorted[0]] + rest;
      assert AvgPriceLe(sorted[0], rest[0]);
      forall k | 0 < k < |r|
        ensures AvgPriceLe(r[k - 1], r[k])
      {
        if k > 1 {
          assert r[k - 1] == rest[k - 2] && r[k] == rest[k - 1];
        }
      }
    }
  }

  /** The groups by non-decreasing average price. */
  function SortByAvgPrice(groups: seq<Group>): (r: seq<Group>)
    ensures multiset(r) == multiset(groups)
    ensures SortedByAvgPrice(r)
  {
    if groups == [] then []
    else
      assert groups == [groups[0]] + groups[1..];
      var rest := SortByAvgPrice(groups[1..]);
      InsertSorted(groups[0], rest);
      Insert(groups[0], rest)
  }

  /** `avgPrice` of a group, as a real number. */
  function AvgPrice(g: Group): real
    requires g.numTours > 0
  {
    g.sumPrice as real / g.numTours as real
  }

  /** Cross-multiplying compares the averages themselves. */
  lemma AvgPriceLeIff(a: Group, b: Group)
    requires a.numTours > 0 && b.numTours > 0
    ensures AvgPriceLe(a, b) <==> AvgPrice(a) <= AvgPrice(b)
  {
    var x, y := AvgPrice(a), AvgPrice(b);
    var na, nb := a.numTours as real, b.numTours as real;
    assert x * na == a.sumPrice as real;
    assert y * nb == b.sumPrice as real;
    assert (a.sumPrice * b.numTours) as real == x * (na * nb);
    assert (b.sumPrice * a.numTours) as real == y * (na * nb);
  }

  lemma {:induction false} AvgPriceChain(groups: seq<Group>, i: nat, j: nat)
    requires SortedByAvgPrice(groups)
    requires forall k :: 0 <= k < |groups| ==> groups[k].numTours > 0
    requires i <= j < |groups|
    ensures AvgPrice(groups[i]) <= AvgPrice(groups[j])
    decreases j - i
  {
    if i < j {
      AvgPriceLeIff(groups[j - 1], groups[j]);
      AvgPriceChain(groups, i, j - 1);
    }
  }

  /** Sorted groups, none empty, come in non-decreasing order of `avgPrice`. */
  lemma SortedAvgOrder(groups: seq<Group>)
    requires SortedByAvgPrice(groups)
    requires forall k :: 0 <= k < |groups| ==> groups[k].numTours > 0
    ensures forall i, j :: 0 <= i <= j < |groups| ==> AvgPrice(groups[i]) <= AvgPrice(groups[j])
  {
    forall i, j | 0 <= i <= j < |groups|
      ensures AvgPrice(groups[i]) <= AvgPrice(groups[j])
    {
      AvgPriceChain(groups, i, j);
    }
  }

  lemma ConsKeysJoin(x: Group, groups: seq<Group>)
    requires x.id !in Ids(groups) && OneGroupPerKey(groups)
    ensures OneGroupPerKey([x] + groups)
  {
    var r := [x] + groups;
    forall i, j | 0 <= i < j < |r|
      ensures r[i].id != r[j].id
    {
      assert r[j] == groups[j - 1] && groups[j - 1] in groups;
      if 0 < i {
        assert r[i] == groups[i - 1];
      }
    }
  }

  lemma ConsKeysSplit(groups: seq<Group>)
    requires groups != [] && OneGroupPerKey(groups)
    ensures groups[0].id !in Ids(groups[1..]) && OneGroupPerKey(groups[1..])
  {
    var tail := groups[1..];
    assert forall k :: 0 <= k < |tail| ==> tail[k] == groups[k + 1];
    forall y | y in tail
      ensures y.id != groups[0].id
    {
      var k :| 0 <= k < |tail| && tail[k] == y;
      assert y == groups[k + 1];
    }
  }

  lemma InsertIds(g: Group, sorted: seq<Group>)
    ensures Ids(Insert(g, sorted)) == Ids(sorted) + {g.id}
  {
    var r := Insert(g, sorted);
    forall x
      ensures x in r <==> x in sorted || x == g
    {
      assert x in r <==> x in multiset(r);
      assert x in sorted <==> x in multiset(sorted);
    }
  }

  lemma {:induction false} InsertOneGroupPerKey(g: Group, sorted: seq<Group>)
    requires OneGroupPerKey(sorted) && g.id !in Ids(sorted)
    ensures OneGroupPerKey(Insert(g, sorted))
  {
    if sorted == [] {
    } else if AvgPriceLe(g, sorted[0]) {
      ConsKeysJoin(g, sorted);
    } else {
      var tail := sorted[1..];
      ConsKeysSplit(sorted);
      assert Ids(sorted) == {sorted[0].id} + Ids(tail) by {
        assert sorted == [sorted[0]] + tail;
      }
      InsertOneGroupPerKey(g, tail);
      InsertIds(g, tail);
      ConsKeysJoin(sorted[0], Insert(g, tail));
    }
  }

  /** Sorting does not merge or split groups. */
  lemma {:induction false} SortOneGroupPerKey(groups: seq<Group>)
    requires OneGroupPerKey(groups)
    ensures OneGroupPerKey(SortByAvgPrice(groups))
  {
    if groups != [] {
      var tail := groups[1..];
      ConsKeysSplit(groups);
      SortOneGroupPerKey(tail);
      var sortedTail := SortByAvgPrice(tail);
      assert Ids(sortedTail) == Ids(tail) by {
        forall x
          ensures x in sortedTail <==> x in tail
        {
          assert x in sortedTail <==> x in multiset(sortedTail);
          assert x in tail <==> x in multiset(tail);
        }
      }
      InsertOneGroupPerKey(groups[0], sortedTail);
    }
  }

  /** Reordering the groups keeps them the `$group` output. */
  lemma SortGroupsOf(groups: seq<Group>, tours: seq<Tour>)
    requires GroupsOf(groups, tours)
    ensures GroupsOf(SortByAvgPrice(groups), tours)
  {
    var r := SortByAvgPrice(groups);
    SortOneGroupPerKey(groups);
    assert forall x :: x in r <==> x in groups by {
      assert forall x :: x in r <==> x in multiset(r);
    }
    assert Summaries(r, tours) by {
      forall i | 0 <= i < |r|
        ensures Members(tours, r[i].id) != [] && r[i] == Summarize(r[i].id, Members(tours, r[i].id))
      {
        assert r[i] in groups;
      }
    }
    assert Ids(r) == Ids(groups);
  }

  lemma {:induction false} InsertTotalTours(g: Group, sorted: seq<Group>)
    ensures TotalTours(Insert(g, sorted)) == g.numTours + TotalTours(sorted)
  {
    if sorted != [] && !AvgPriceLe(g, sorted[0]) {
      InsertTotalTours(g, sorted[1..]);
      assert ([sorted[0]] + Insert(g, sorted[1..]))[1..] == Insert(g, sorted[1..]);
    } else if sorted != [] {
      assert ([g] + sorted)[1..] == sorted;
    }
  }

  lemma {:induction false} SortTotalTours(groups: seq<Group>)
    ensures TotalTours(SortByAvgPrice(groups)) == TotalTours(groups)
  {
    if groups != [] {
      SortTotalTours(groups[1..]);
      InsertTotalTours(groups[0], SortByAvgPrice(groups[1..]));
    }
  }

  // ---------------------------------------------------------------------
  // The pipeline
  // ---------------------------------------------------------------------

  /** `Tour.aggregate([$match, $group, $sort])`. */
  function Stats(tours: seq<Tour>): seq<Group> {
    SortByAvgPrice(GroupAll(Match(tours)))
  }

  function Keys(tours: seq<Tour>): set<string> {
    set t | t in tours :: Key(t)
  }

  /**
   * The output holds exactly one group per upper-cased difficulty among the
   * matched tours, and each group is the summary of the matched tours of its
   * key.
   */
  lemma StatsGroups(tours: seq<Tour>)
    ensures GroupsOf(Stats(tours), Match(tours))
    ensures Ids(Stats(tours)) == Keys(Match(tours))
  {
    var m := Match(tours);
    var out := Stats(tours);
    GroupAllSpec(m);
    SortGroupsOf(GroupAll(m), m);
    forall id | id in Ids(out)
      ensures id in Keys(m)
    {
      var i :| 0 <= i < |out| && out[i].id == id;
      var x := Members(m, id)[0];
      MembersIn(m, id);
      assert x in Members(m, id);
    }
  }

  /** Two matched tours whose difficulties differ only in letter case share a group. */
  lemma SameDifficultySameGroup(tours: seq<Tour>, a: Tour, b: Tour)
    requires a in Match(tours) && b in Match(tours)
    requires SameIgnoringCase(a.difficulty, b.difficulty)
    ensures var out := Stats(tours);
      exists i :: 0 <= i < |out| && a in Members(Match(tours), out[i].id) && b in Members(Match(tours), out[i].id)
  {
    var m := Match(tours);
    var out := Stats(tours);
    StatsGroups(tours);
    ToUpperSameIff(a.difficulty, b.difficulty);
    assert Key(a) in Ids(out);
    var i :| 0 <= i < |out| && out[i].id == Key(a);
    MembersIn(m, Key(a));
    assert a in Members(m, out[i].id) && b in Members(m, out[i].id);
  }

  /** The counts of all groups add up to the number of matched tours. */
  lemma StatsCount(tours: seq<Tour>)
    ensures TotalTours(Stats(tours)) == |Match(tours)|
  {
    GroupAllCount(Match(tours));
    SortTotalTours(GroupAll(Match(tours)));
  }

  /**
   * In every group `minPrice <= avgPrice <= maxPrice` and the average rating
   * is at least 4.5, with averages as sums over counts.
   */
  lemma StatsBounds(tours: seq<Tour>)
    ensures forall g :: g in Stats(tours) ==>
      g.numTours > 0 &&
      g.minPrice * g.numTours <= g.sumPrice <= g.maxPrice * g.numTours &&
      g.sumRatings >= MinRating * g.numTours
  {
    var m := Match(tours);
    var out := Stats(tours);
    StatsGroups(tours);
    forall g | g in out
      ensures g.numTours > 0 &&
        g.minPrice * g.numTours <= g.sumPrice <= g.maxPrice * g.numTours &&
        g.sumRatings >= MinRating * g.numTours
    {
      var i :| 0 <= i < |out| && out[i] == g;
      var ms := Members(m, g.id);
      MembersIn(m, g.id);
      forall k | 0 <= k < |ms|
        ensures Qualifies(ms[k])
      {
        assert ms[k] in ms;
      }
      SummaryPriceBounds(g.id, ms);
      SummaryRatingFloor(g.id, ms);
    }
  }

  /** The groups come out by non-decreasing average price. */
  lemma StatsOrdered(tours: seq<Tour>)
    ensures forall i :: 0 <= i < |Stats(tours)| ==> Stats(tours)[i].numTours > 0
    ensures forall i, j :: 0 <= i <= j < |Stats(tours)| ==>
      AvgPrice(Stats(tours)[i]) <= AvgPrice(Stats(tours)[j])
  {
    var out := Stats(tours);
    StatsGroups(tours);
    SortedAvgOrder(out);
  }

  // The aggregation on three sample tours.

  const ForestHiker := Tour("Forest Hiker", "easy", 46, 10, 100)
  const SeaExplorer := Tour("Sea Explorer", "easy", 48, 20, 200)
  const SnowAdventurer := Tour("Snow Adventurer", "medium", 49, 30, 300)
  const EasyGroup := Group("EASY", 2, 30, 94, 300, 100, 200)
  const MediumGroup := Group("MEDIUM", 1, 30, 49, 300, 300, 300)

  /** The two easy tours share one group opened by the first of them; the medium one opens the second. */
  lemma SampleGroups()
    ensures GroupAll([ForestHiker, SeaExplorer, SnowAdventurer]) == [EasyGroup, MediumGroup]
  {
    var tours := [ForestHiker, SeaExplorer, SnowAdventurer];
    assert Key(ForestHiker) == "EASY" && Key(SeaExplorer) == "EASY";
    assert Key(SnowAdventurer) == "MEDIUM";
    assert tours[..2] == [ForestHiker, SeaExplorer] && tours[..2][..1] == [ForestHiker];
    assert [ForestHiker][..0] == [];
    assert GroupAll([]) == [] && IndexOf([], "EASY") == -1;
    assert GroupAll([ForestHiker]) == AddTour([], ForestHiker) == [First(ForestHiker)];
    assert GroupAll(tours[..2]) == [Absorb(First(ForestHiker), SeaExplorer)];
  }

  /** Three qualifying tours all pass the match. */
  lemma SampleMatch()
    ensures Match([ForestHiker, SeaExplorer, SnowAdventurer]) == [ForestHiker, SeaExplorer, SnowAdventurer]
  {
    MatchAllQualify([ForestHiker, SeaExplorer, SnowAdventurer]);
  }

  /** EASY averages 150 and MEDIUM 300, so the two groups are already in order. */
  lemma SampleSort()
    ensures SortByAvgPrice([EasyGroup, MediumGroup]) == [EasyGroup, MediumGroup]
  {
    var e, m := EasyGroup, MediumGroup;
    assert [e, m][1..] == [m] && [m][1..] == [];
    assert SortByAvgPrice([m]) == [m];
    assert AvgPriceLe(e, m);
  }

  /**
   * Two easy tours at 100 and 200 and a medium one at 300, all rated above
   * 4.5, give EASY (two tours, average 150) before MEDIUM (one, 300).
   */
  lemma StatsScenario()
    ensures Stats([ForestHiker, SeaExplorer, SnowAdventurer]) == [EasyGroup, MediumGroup]
  {
    SampleMatch();
    SampleGroups();
    SampleSort();
  }
}
