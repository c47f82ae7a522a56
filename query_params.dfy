/**
 * The client's query parameters as the builder sees them (`request.query`),
 * and the filter object that `APIFeatures.filter` derives from them.
 */
module QueryParams {
  import opened Wrappers
  import opened OperatorRewrite
  import NumberCoercion

  /**
   * A query parameter as Express's query-string parser yields it: a string,
   * an array (`?a=1&a=2`) or a nested object (`?price[gte]=200`).
   */
  datatype Value = Str(s: string) | Arr(items: seq<Value>) | Obj(fields: map<string, Value>)

  type ParamMap = map<string, Value>

  /** The keys `filter` deletes from its copy of the query, in the order it deletes them. */
  const ExcludedFields: seq<string> := ["page", "sort", "limit", "fields"]

  /** `q[key]`, or `undefined`. */
  function Param(q: ParamMap, key: string): Option<Value> {
    if key in q then Some(q[key]) else None
  }

  /** JavaScript truthiness of a parameter: only `undefined` and `''` are falsy. */
  predicate Truthy(v: Option<Value>) {
    match v
    case None => false
    case Some(Str(s)) => s != []
    case Some(_) => true
  }

  /**
   * `v * 1` on integers, for a value whose conversion does not throw (see
   * `ToPrimitiveThrows`): a string is read as a number; an array is read as
   * the text of its elements joined with commas, so `[]` is 0, a one-element
   * array reads like its element and a longer one is NaN; an object reads as
   * `"[object Object]"`, which is NaN.
   */
  function NumberOf(v: Value): Option<int> {
    match v
    case Str(s) => NumberCoercion.StringToNumber(s)
    case Arr(items) =>
      if |items| == 0 then Some(0)
      else if |items| == 1 then NumberOf(items[0])
      else None
    case Obj(_) => None
  }

  /**
   * Whether converting `v` to a primitive value throws a `TypeError`. The
   * query parser keeps a key named `toString` (`?page[toString]=1`) as an own
   * string property, which is not callable, while `valueOf` returns the object
   * itself, so neither yields a primitive. An array is converted by joining its
   * elements, and each element is converted in turn.
   */
  predicate ToPrimitiveThrows(v: Value) {
    match v
    case Str(_) => false
    case Arr(items) => exists i :: 0 <= i < |items| && ToPrimitiveThrows(items[i])
    case Obj(fields) => "toString" in fields
  }

  /** `param * 1 || fallback`: NaN and 0 are falsy, every other number is kept. */
  function NumberOr(v: Option<Value>, fallback: int): (n: int)
    ensures n == fallback || (v.Some? && NumberOf(v.value) == Some(n) && n != 0)
    ensures v.Some? && NumberOf(v.value).Some? && NumberOf(v.value).value != 0 ==> n == NumberOf(v.value).value
  {
    if v.Some? && NumberOf(v.value).Some? && NumberOf(v.value).value != 0 then NumberOf(v.value).value
    else fallback
  }

  /** The residual map of `filter`: the query without the excluded keys. */
  function WithoutExcluded(q: ParamMap): (r: ParamMap)
    ensures forall k :: k in r <==> k in q && k !in ExcludedFields
    ensures forall k :: k in r ==> r[k] == q[k]
  {
    map k | k in q && k !in ExcludedFields :: q[k]
  }

  /**
   * The operator rewrite of `JSON.stringify` / `replace` / `JSON.parse`: JSON
   * punctuation is made of non-word characters, so the rewrite of the text is
   * the rewrite of every key and every string inside the value.
   */
  function RewriteValue(v: Value): Value
    decreases v, 1
  {
    match v
    case Str(s) => Str(Rewrite(s))
    case Arr(items) => Arr(seq(|items|, i requires 0 <= i < |items| => RewriteValue(items[i])))
    case Obj(fields) => Obj(RewriteFields(fields))
  }

  /** `JSON.parse` of the rewritten text of an object: every key and every value rewritten. */
  function RewriteFields(fields: map<string, Value>): map<string, Value>
    decreases Obj(fields), 0
  {
    RewriteInjective();
    map k | k in fields :: Rewrite(k) := RewriteValue(fields[k])
  }

  /**
   * An object's keys and values are rewritten one by one, and every rewritten
   * key comes from exactly one original key.
   */
  lemma RewriteFieldsKeys(fields: map<string, Value>)
    ensures forall k :: k in fields ==>
      Rewrite(k) in RewriteFields(fields) && RewriteFields(fields)[Rewrite(k)] == RewriteValue(fields[k])
    ensures forall key :: key in RewriteFields(fields) ==> exists k :: k in fields && Rewrite(k) == key
  {
    var m := RewriteFields(fields);
    RewriteInjective();
    forall k | k in fields
      ensures Rewrite(k) in m && m[Rewrite(k)] == RewriteValue(fields[k])
    {
      assert Rewrite(k) in m;
    }
  }

  /** A word of letters, digits and `_` that is not an operator is left as it is. */
  lemma PlainWord(w: string)
    requires |w| > 0 && w !in Operators
    requires forall i :: 0 <= i < |w| ==> IsWordChar(w[i])
    ensures Rewrite(w) == w
  {
    WordEndExact(w, 0, |w|);
    assert w[0..|w|] == w;
    assert Rewrite(w) == w[0..|w|] + RewriteFrom(w, |w|);
  }

  /** An operator word on its own gets its `$`. */
  lemma OperatorWord(w: string)
    requires w in Operators
    ensures Rewrite(w) == "$" + w
  {
    OperatorWordChars(w);
    WordEndExact(w, 0, |w|);
    assert w[0..|w|] == w;
    assert Rewrite(w) == "$" + w[0..|w|] + RewriteFrom(w, |w|);
  }

  /** None of the excluded keys contains an operator token. */
  lemma ExcludedUnchanged()
    ensures forall k :: k in ExcludedFields ==> Rewrite(k) == k
  {
    forall k | k in ExcludedFields
      ensures Rewrite(k) == k
    {
      PlainWord(k);
    }
  }

  /**
   * The filter object handed to `find`: the residual map with every
   * comparison token prefixed by `$`.
   */
  function FilterConditions(q: ParamMap): (r: ParamMap)
    ensures forall k :: k in ExcludedFields ==> k !in r
    ensures forall k :: k in q && k !in ExcludedFields ==>
      Rewrite(k) in r && r[Rewrite(k)] == RewriteValue(q[k])
    ensures forall key :: key in r ==> exists k :: k in q && k !in ExcludedFields && Rewrite(k) == key
  {
    var kept := WithoutExcluded(q);
    ExcludedUnchanged();
    RewriteInjective();
    RewriteFieldsKeys(kept);
    RewriteFields(kept)
  }

  /** No comparison token occurs in any key or string of `v`. */
  ghost predicate NoOperatorTokens(v: Value) {
    match v
    case Str(s) => Matches(s) == {}
    case Arr(items) => forall i :: 0 <= i < |items| ==> NoOperatorTokens(items[i])
    case Obj(fields) => forall k :: k in fields ==> Matches(k) == {} && NoOperatorTokens(fields[k])
  }

  /** A value without comparison tokens goes through the rewrite unchanged. */
  lemma {:induction false} RewritePlainValue(v: Value)
    requires NoOperatorTokens(v)
    ensures RewriteValue(v) == v
  {
    match v
    case Str(s) =>
      RewriteUnchangedIff(s);
    case Arr(items) =>
      forall i | 0 <= i < |items|
        ensures RewriteValue(items[i]) == items[i]
      {
        RewritePlainValue(items[i]);
      }
    case Obj(fields) =>
      var m := RewriteFields(fields);
      RewriteFieldsKeys(fields);
      RestoreRewriteAll();
      forall k | k in fields
        ensures Rewrite(k) == k && RewriteValue(fields[k]) == fields[k]
      {
        RewriteUnchangedIff(k);
        RewritePlainValue(fields[k]);
      }
      assert m == fields;
  }

  /**
   * After `filter`, every parameter other than `page`, `sort`, `limit` and
   * `fields` whose key and value hold no comparison token keeps its value.
   */
  lemma FilterKeepsPlainParams(q: ParamMap, k: string)
    requires k in q && k !in ExcludedFields
    requires Matches(k) == {} && NoOperatorTokens(q[k])
    ensures k in FilterConditions(q) && FilterConditions(q)[k] == q[k]
  {
    RewriteUnchangedIff(k);
    RewritePlainValue(q[k]);
  }

  /** An object of two fields is rewritten field by field. */
  lemma RewriteTwoFields(a: string, b: string, va: Value, vb: Value)
    requires a != b
    ensures RewriteFields(map[a := va, b := vb]) == map[Rewrite(a) := RewriteValue(va), Rewrite(b) := RewriteValue(vb)]
  {
    var fields := map[a := va, b := vb];
    var m := RewriteFields(fields);
    var expected := map[Rewrite(a) := RewriteValue(va), Rewrite(b) := RewriteValue(vb)];
    RewriteInjective();
    RewriteFieldsKeys(fields);
    assert Rewrite(a) != Rewrite(b);
    forall key | key in m
      ensures key in expected && m[key] == expected[key]
    {
      var k :| k in fields && Rewrite(k) == key;
    }
    assert m.Keys == expected.Keys;
  }

  /** A bounds object `{ gte: lo, lte: hi }` gets both operators prefixed. */
  lemma RewriteBounds(lo: string, hi: string)
    requires Rewrite(lo) == lo && Rewrite(hi) == hi
    ensures RewriteFields(map["gte" := Str(lo), "lte" := Str(hi)]) == map["$gte" := Str(lo), "$lte" := Str(hi)]
  {
    OperatorWord("gte");
    OperatorWord("lte");
    assert "$" + "gte" == "$gte" && "$" + "lte" == "$lte";
    assert RewriteValue(Str(lo)) == Str(lo) && RewriteValue(Str(hi)) == Str(hi);
    RewriteTwoFields("gte", "lte", Str(lo), Str(hi));
  }

  /** A query of one parameter that is not excluded filters on that parameter alone, rewritten. */
  lemma FilterOneParam(field: string, v: Value)
    requires field !in ExcludedFields
    ensures FilterConditions(map[field := v]) == map[Rewrite(field) := RewriteValue(v)]
  {
    var q := map[field := v];
    var r := FilterConditions(q);
    forall key | key in r
      ensures key == Rewrite(field)
    {
      var k :| k in q && k !in ExcludedFields && Rewrite(k) == key;
    }
    assert r.Keys == {Rewrite(field)};
  }

  /**
   * A range on one field, `?field[gte]=lo&field[lte]=hi`, filters on
   * `{ field: { $gte: lo, $lte: hi } }` when no word in it is an operator.
   */
  lemma FilterRange(field: string, lo: string, hi: string)
    requires field !in ExcludedFields
    requires Rewrite(field) == field && Rewrite(lo) == lo && Rewrite(hi) == hi
    ensures FilterConditions(map[field := Obj(map["gte" := Str(lo), "lte" := Str(hi)])]) ==
      map[field := Obj(map["$gte" := Str(lo), "$lte" := Str(hi)])]
  {
    var bounds := map["gte" := Str(lo), "lte" := Str(hi)];
    RewriteBounds(lo, hi);
    assert RewriteValue(Obj(bounds)) == Obj(map["$gte" := Str(lo), "$lte" := Str(hi)]);
    FilterOneParam(field, Obj(bounds));
  }

  /** `?price[gte]=200&price[lte]=500` filters on `{ price: { $gte: '200', $lte: '500' } }`. */
  lemma FilterPriceRange()
    ensures FilterConditions(map["price" := Obj(map["gte" := Str("200"), "lte" := Str("500")])]) ==
      map["price" := Obj(map["$gte" := Str("200"), "$lte" := Str("500")])]
  {
    PlainWord("price");
    PlainWord("200");
    PlainWord("500");
    FilterRange("price", "200", "500");
  }
}
