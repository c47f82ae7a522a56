# Tours API: query builder and tour statistics

A model of the core of the Tours API, a Node/Express service over a MongoDB collection of tours, in Dafny. It covers three pieces:

- The query builder `APIFeatures`. It takes the query-string map a client sends (`request.query`) and refines a deferred Mongoose query in four steps:
  - `filter` drops the reserved keys `page`, `sort`, `limit` and `fields`, and prefixes the comparison tokens `gte`, `gt`, `lte` and `lt` with `$`;
  - `sort` passes the comma list of sort fields as a space list, or `-createdAt`;
  - `limitFields` does the same for the projection, or passes `-__v`;
  - `paginate` coerces `page` and `limit` with fallbacks 1 and 100 and skips `(page - 1) * limit` results; the coercion throws a `TypeError` for a parameter that cannot be converted to a primitive value, such as `?page[toString]=1`.
- The two query handlers of the tour controller:
  - the `aliasTopTours` middleware, which overwrites `limit`, `sort` and `fields`;
  - `getAllTours`, which runs the four builder steps in order on `Tour.find()`.
- The fixed aggregation pipeline of `getTourStats`:
  - `$match` keeps the tours rated 4.5 or more;
  - `$group` groups them by upper-cased difficulty, with a count, the sums of ratings, ratings quantity and price, and the minimum and maximum price;
  - `$sort` orders the groups by ascending average price.

The deferred query is modelled as the list of refinements it has been asked for (`Find`, `SortBy`, `Select`, `Skip`, `Limit`). MongoDB itself is not modelled.

Modules, one per file:

- `Wrappers`: the `Option` and `Result` types.
- `OperatorRewrite`: the regular-expression replace `/\b(gte|gt|lte|lt)\b/g`, written as a left-to-right scan over word runs. It is proved equal to a declarative "prefix every match" definition, and proved injective through an inverse `Restore`.
- `CommaList`: `split` and `join` on one separator character, with their round trips.
- `NumberCoercion`: JavaScript's `value * 1` on a string, restricted to the empty string and the optionally signed decimal integer numerals; every other text reads as NaN.
- `QueryParams`: query parameters as Express parses them (a string, an array or a nested object), their truthiness and numeric coercion, and the filter object that `filter` builds from them.
- `ApiFeatures`: the argument functions and the `APIFeatures` class, whose `query` field each method reassigns and whose `queryString` is a constant.
- `TourController`: the `Request` and `Next` classes, `AliasTopTours` (a method that updates `request.query` in place) and `GetAllTours` (the builder chain).
- `TourStats`: the statistics pipeline as pure functions, with a reference definition of the groups (`GroupsOf`) that the grouping is proved to meet.

Representation choices:

- Ratings are whole tenths of a star, so 4.5 is 45. Prices are integers.
- An average is kept as a sum and a count. Two averages are compared by cross-multiplying (`AvgPriceLe`), and the lemma `AvgPriceLeIff` ties this to the real-valued quotient `AvgPrice`.
- The JSON stringify / replace / parse step of `filter` is modelled on the parsed value. Every key and every string inside the residual map is rewritten, because JSON punctuation consists of non-word characters and does not affect the `\b` boundaries. `Rewrite` is injective, so rewritten keys never collide.

Behaviour of the code that is easy to misread:

- A negative `page` or `limit` is kept as it is: `-5 * 1 || 100` is `-5` (utils/apiFeatures.js:133). Only 0, NaN or a missing parameter falls back to the default.
- The default sort is the string `-createdAt`, which Mongoose reads as descending creation time, although the comment at utils/apiFeatures.js:92 says "earliest first". The model passes the string on and claims no order.
- The sort and the projection reach Mongoose as space-separated strings, not as parsed field lists, and the model keeps them as strings.
- `page * 1` is not always a number or NaN. The query parser turns `?page[toString]=1` into an object whose own `toString` is a string, so the conversion finds no callable `toString` and throws. An array holding such an object throws too, because an array is converted by converting its elements.

## Model

| member | source | states |
|---|---|---|
| OperatorRewrite.WordEnd | utils/apiFeatures.js:54 | the end of the word run at `i` lies within the string, after at least one word character, and is followed by a non-word character or the end of the string |
| OperatorRewrite.Rewrite | utils/apiFeatures.js:54 | the regular-expression replace, as a scan over maximal word runs that prefixes a run with `$` when it is one of the four operators; proved equal to the declarative replace by `RewriteIsRegexReplace` and inverted by `RestoreRewrite` |
| OperatorRewrite.RewriteIsRegexReplace | utils/apiFeatures.js:54 | the scanning rewrite equals the declarative replace: a `$` before every position that starts a whole-word `gte`, `gt`, `lte` or `lt`, every other character copied |
| OperatorRewrite.MatchAtRunStart | utils/apiFeatures.js:54 | at the start of a word run, a token matches exactly when the whole run is one of the four operators |
| OperatorRewrite.NoMatchInsideRun | utils/apiFeatures.js:54 | no match starts inside a word run, so `agt` is left alone |
| OperatorRewrite.MatchStartsWord | utils/apiFeatures.js:54 | a match always starts on a word character |
| OperatorRewrite.RewriteLength | utils/apiFeatures.js:54 | the output is longer than the input by exactly the number of matched tokens |
| OperatorRewrite.RewriteUnchangedIff | utils/apiFeatures.js:54 | the text is unchanged if and only if it contains no operator token |
| OperatorRewrite.RestoreRewrite | utils/apiFeatures.js:54 | removing the `$` in front of every operator token undoes the rewrite |
| OperatorRewrite.RewriteInjective | utils/apiFeatures.js:54 | two different texts never rewrite to the same text |
| OperatorRewrite.RewriteTwiceIff | utils/apiFeatures.js:54 | applying the rewrite twice gives the same as once only when there was nothing to rewrite; an already prefixed `$gte` is prefixed again |
| OperatorRewrite.RewriteExamples | utils/apiFeatures.js:54 | `gte` becomes `$gte` and `$gte` becomes `$$gte`, while `gtex` and `agt` are unchanged |
| CommaList.Split | utils/apiFeatures.js:89 | `split` yields at least one piece, and no piece contains the separator |
| CommaList.JoinSplit | utils/apiFeatures.js:89 | `split(c).join(d)` is the text with every `c` replaced by `d` and every other character kept, at the same length |
| CommaList.SplitJoin | utils/apiFeatures.js:89 | splitting a join of separator-free pieces gives the pieces back |
| CommaList.JoinSplitRoundTrip | utils/apiFeatures.js:89 | joining the pieces of a split on the same separator gives the text back |
| CommaList.SpaceListFields | utils/apiFeatures.js:89 | for a list without spaces, the space list splits into the same fields, in the same order, as the comma list |
| CommaList.Join | utils/apiFeatures.js:89 | `join(d)`: the pieces with `d` between each two; `SplitJoin`, `JoinSplit` and `JoinSplitRoundTrip` state what it yields |
| CommaList.SplitPieces | utils/apiFeatures.js:89 | each piece is made only of characters of the text |
| NumberCoercion.StringToNumber | utils/apiFeatures.js:132-133 | `Number(s)` on a query string, as far as the model reads it: the empty string is 0, an optionally signed decimal integer numeral is its integer, and every other text is NaN (`None`) in the model, fractions and exponents included; `StringToNumberShowInt` and `StringToNumberNaN` state both sides |
| NumberCoercion.ShowNat | utils/apiFeatures.js:132-133 | a numeral has at least one character and only digits |
| NumberCoercion.DigitsValueShowNat | utils/apiFeatures.js:132-133 | reading the numeral of `n` gives `n` back |
| NumberCoercion.StringToNumberShowInt | utils/apiFeatures.js:132-133 | `* 1` on the numeral of any integer, negative ones included, gives that integer |
| NumberCoercion.StringToNumberNaN | utils/apiFeatures.js:132-133 | in the model, a text with a character that is neither a digit nor a sign is NaN; JavaScript reads some of these texts (`2.5`, `1e3`, ` 7`) as numbers |
| QueryParams.Truthy | utils/apiFeatures.js:84-107 | JavaScript truthiness of a parameter: `undefined` and `''` are falsy, and any other string, array or object is truthy; `ListArgument` decides on it |
| QueryParams.NumberOf | utils/apiFeatures.js:132-133 | `v * 1` on a parsed parameter whose conversion does not throw: a string is read as `StringToNumber` reads it, an empty array is 0, a one-element array reads as its element, a longer array is NaN, and an object without a `toString` key reads as `"[object Object]"`, which is NaN |
| QueryParams.ToPrimitiveThrows | utils/apiFeatures.js:132-133 | `v * 1` throws a `TypeError` exactly for an object with its own `toString` key and for an array with such a value among its elements, at any depth; strings never throw |
| QueryParams.NumberOr | utils/apiFeatures.js:132-133 | the page or limit is the fallback or the non-zero number that `v * 1` reads; a non-zero number is always kept |
| QueryParams.WithoutExcluded | utils/apiFeatures.js:21-35 | the copy keeps exactly the keys other than `page`, `sort`, `limit` and `fields`, each with its original value |
| QueryParams.RewriteValue | utils/apiFeatures.js:48-69 | the stringify, replace and parse round of `filter` on one value, modelled on the parsed value rather than on the JSON text: every string and every key inside it is rewritten, and the shape is kept |
| QueryParams.RewriteFields | utils/apiFeatures.js:48-69 | the same round on an object, on the parsed value: each key is rewritten and mapped to its rewritten value; `RewriteFieldsKeys` states that the result has one key per input key |
| QueryParams.RewriteFieldsKeys | utils/apiFeatures.js:48-69 | each key and its value are rewritten, and every key of the result comes from one key of the input |
| QueryParams.PlainWord | utils/apiFeatures.js:54 | a word that is not an operator is left as it is |
| QueryParams.ExcludedUnchanged | utils/apiFeatures.js:27 | none of the four reserved keys is changed by the rewrite |
| QueryParams.FilterConditions | utils/apiFeatures.js:21-69 | the filter object holds none of the reserved keys, holds every other parameter under its rewritten key with its rewritten value, and holds nothing else; the rewrite is applied to the parsed value, not to the JSON text |
| QueryParams.RewritePlainValue | utils/apiFeatures.js:48-69 | a value with no operator token in any key or string goes through unchanged |
| QueryParams.FilterKeepsPlainParams | utils/apiFeatures.js:21-69 | a non-reserved parameter with no operator token keeps its key and its value in the filter object |
| QueryParams.OperatorWord | utils/apiFeatures.js:54 | an operator word on its own gets a `$` in front |
| QueryParams.RewriteTwoFields | utils/apiFeatures.js:48-69 | an object of two fields is rewritten field by field |
| QueryParams.RewriteBounds | utils/apiFeatures.js:48-69 | the bounds object `{ gte: lo, lte: hi }` becomes `{ $gte: lo, $lte: hi }` when neither bound holds an operator token |
| QueryParams.FilterOneParam | utils/apiFeatures.js:21-69 | a query of one non-reserved parameter filters on that parameter alone, rewritten |
| QueryParams.FilterRange | utils/apiFeatures.js:21-69 | `?field[gte]=lo&field[lte]=hi` filters on `{ field: { $gte: lo, $lte: hi } }` when no word in it is an operator |
| QueryParams.FilterPriceRange | utils/apiFeatures.js:21-69 | `?price[gte]=200&price[lte]=500` filters on `{ price: { $gte: '200', $lte: '500' } }` |
| ApiFeatures.SpaceList | utils/apiFeatures.js:89 | `split(',').join(' ')`; `SpaceListReplacesCommas` and `SpaceListKeepsFields` state what it yields |
| ApiFeatures.SpaceListReplacesCommas | utils/apiFeatures.js:89 | the space list is the comma list with every comma replaced by a space |
| ApiFeatures.SpaceListKeepsFields | utils/apiFeatures.js:89 | the space list names the same fields in the same order |
| ApiFeatures.ListArgument | utils/apiFeatures.js:84-116 | a falsy parameter (missing or empty) gives the default; a truthy one succeeds exactly when it is a string; a truthy array or object throws `TypeError` |
| ApiFeatures.ListArgumentReplacesCommas | utils/apiFeatures.js:109 | a truthy string becomes itself with every comma replaced by a space |
| ApiFeatures.SortArgument | utils/apiFeatures.js:84-93 | the argument of `sort`: `-createdAt` when `sort` is falsy; the `TypeError` exactly when `sort` is truthy and not a string; otherwise the space list (`ListArgument`) |
| ApiFeatures.SelectArgument | utils/apiFeatures.js:107-116 | the argument of `select`: `-__v` when `fields` is falsy; the `TypeError` exactly when `fields` is truthy and not a string; otherwise the space list (`ListArgument`) |
| ApiFeatures.PageNumber | utils/apiFeatures.js:132 | the page number, `page * 1` or else 1, is never 0, and is either 1 or the number `page` reads as; `PagingFallbacks` says which |
| ApiFeatures.PageSize | utils/apiFeatures.js:133 | the page size, `limit * 1` or else 100, is never 0, and is either 100 or the number `limit` reads as; `PagingFallbacks` says which |
| ApiFeatures.Paging | utils/apiFeatures.js:132-133 | `paginate` throws the `TypeError` of `page` when `page * 1` throws, else that of `limit` when `limit * 1` throws, and otherwise yields the page number and page size |
| ApiFeatures.PagingOfStrings | utils/apiFeatures.js:132-133 | string parameters, or missing ones, never make `paginate` throw |
| ApiFeatures.PagingToStringKey | utils/apiFeatures.js:132 | `?page[toString]=1`, alone or as an element of an array, makes `paginate` throw |
| ApiFeatures.PagingFallbacks | utils/apiFeatures.js:132-133 | a page or limit that reads as a non-zero number is kept, negative ones included; zero, NaN and a missing parameter give 1 and 100 |
| ApiFeatures.SkipCount | utils/apiFeatures.js:138 | the number of results on the pages before the requested one, `(page - 1) * limit`; `PaginateDefaults`, `PaginateThirdPage` and `TopToursPaging` give its values |
| ApiFeatures.PaginateDefaults | utils/apiFeatures.js:132-145 | without `page` and `limit` the builder skips nothing and asks for 100 results |
| ApiFeatures.PaginateThirdPage | utils/apiFeatures.js:135-138 | `page=3&limit=10` skips 20 results and asks for 10 |
| ApiFeatures.PageSizeKeepsNumeral | utils/apiFeatures.js:133 | `limit` set to the numeral of any non-zero integer, negative ones included, is taken as that integer |
| ApiFeatures.APIFeatures.constructor | utils/apiFeatures.js:6-9 | the builder holds the given query and query string |
| ApiFeatures.APIFeatures.Filter | utils/apiFeatures.js:13-72 | the reserved keys are deleted in a loop from a copy, the filter object is appended as a `find`, the query string is untouched, and the builder returns itself |
| ApiFeatures.APIFeatures.Sort | utils/apiFeatures.js:84-96 | the sort argument is appended and the builder returned, or the `TypeError` is returned with the query unchanged |
| ApiFeatures.APIFeatures.LimitFields | utils/apiFeatures.js:107-118 | the projection is appended and the builder returned, or the `TypeError` is returned with the query unchanged |
| ApiFeatures.APIFeatures.Paginate | utils/apiFeatures.js:132-147 | `skip((page - 1) * limit)` and `limit(limit)` are appended, in that order, and the builder returns itself; when `page * 1` or `limit * 1` throws, the `TypeError` is returned and the query is unchanged |
| TourController.TopTours | controllers/tourController.js:10-12 | `limit`, `sort` and `fields` hold the three fixed strings; every other key is present exactly when it was before, with the same value |
| TourController.AliasTopTours | controllers/tourController.js:9-14 | the request's query becomes the aliased map, and `next` is called exactly once |
| TourController.GetAllTours | controllers/tourController.js:20-64 | running `filter`, `sort`, `limitFields` and `paginate` on a fresh builder succeeds exactly when none of `sort`, `fields`, `page * 1` and `limit * 1` throws, and then asks for `find()`, the filter object, the sort argument, the projection, the skip and the page size, in that order; otherwise it yields the thrown `TypeError` |
| TourController.BuildPlan | controllers/tourController.js:33 | the chain's outcome as a value: the six refinements, or the first `TypeError` thrown by `sort`, `limitFields` or `paginate`; `GetAllTours` is proved to produce it and `PlanErrors` states when it fails |
| TourController.PlanErrors | controllers/tourController.js:33-63 | the chain fails exactly when a truthy `sort` or `fields` is an array or an object, or when `page` or `limit` cannot be converted to a primitive; the `sort` error comes first, then the `fields` error, then the paging error |
| TourController.AliasKeepsFilter | controllers/tourController.js:10-12 | the alias does not change the filter object, because all three keys it sets are reserved |
| TourController.TopToursPaging | controllers/tourController.js:10 | after the alias the page size is 5, the page number is unchanged, `(page - 1) * 5` results are skipped, and `paginate` throws exactly when the original `page` does |
| TourController.TopSortArgument | controllers/tourController.js:11 | after the alias the sort argument is `-ratingsAverage price` |
| TourController.TopSelectArgument | controllers/tourController.js:12 | after the alias the projection is `name price ratingsAverage summary difficulty` |
| TourController.TopToursPlan | controllers/tourController.js:9-14 | after the alias, `getAllTours` sorts by `-ratingsAverage price`, selects the five summary fields, skips `(page - 1) * 5` results and asks for 5, with the filter of the original query; it throws only when the original `page` cannot be converted |
| TourController.SpaceListOfPieces | utils/apiFeatures.js:109 | a comma list of pieces without commas becomes those pieces joined by spaces |
| TourStats.Qualifies | controllers/tourController.js:201 | the `$match` condition `ratingsAverage >= 4.5`, in tenths; `MatchCounts` states that `$match` keeps exactly the tours that meet it |
| TourStats.Match | controllers/tourController.js:201 | every tour `$match` passes is rated 4.5 or more |
| TourStats.MatchCounts | controllers/tourController.js:201 | a tour rated 4.5 or more is kept as often as it occurs, and any other tour is dropped |
| TourStats.MatchAllQualify | controllers/tourController.js:201 | when every tour qualifies the match passes them all, in order |
| TourStats.MatchAppend | controllers/tourController.js:201 | the match works document by document: matching two runs is matching each |
| TourStats.ToUpper | controllers/tourController.js:210 | `$toUpper` on ASCII: every lower-case letter is mapped to its capital, and every other character is kept; `ToUpperSameIff` and `ToUpperIdempotent` state its properties |
| TourStats.Key | controllers/tourController.js:210 | the `_id` of a tour's group, its upper-cased difficulty |
| TourStats.ToUpperSameIff | controllers/tourController.js:210 | two difficulties have the same upper case if and only if they differ only in letter case |
| TourStats.ToUpperIdempotent | controllers/tourController.js:210 | the upper case holds no lower-case letter, and upper-casing twice is upper-casing once |
| TourStats.Absorb | controllers/tourController.js:214-222 | one accumulator step: the count rises by one, the sums grow by the tour's fields, and the minimum and maximum are revised; `SummarizeSnoc` ties it to the summary |
| TourStats.IndexOf | controllers/tourController.js:210 | the index of the group with `_id` `key`, or -1 exactly when there is none |
| TourStats.MembersIn | controllers/tourController.js:210 | the members of a key are exactly the tours with that key |
| TourStats.PriceExtremes | controllers/tourController.js:221-222 | `$min` and `$max` bound every price and are each the price of some tour |
| TourStats.SummarizeSnoc | controllers/tourController.js:214-222 | one more tour updates the summary as the accumulators do: count and sums grow, minimum and maximum are revised |
| TourStats.AddTour | controllers/tourController.js:204-223 | one tour enters the group of its key, which is opened at the end when the key is new; `AddTourSpec` states that it keeps the grouping correct |
| TourStats.GroupAll | controllers/tourController.js:204-223 | `$group` over the documents in arrival order; `GroupAllSpec` and `GroupAllCount` state its result |
| TourStats.AddTourSpec | controllers/tourController.js:204-223 | adding one tour keeps the groups a correct `$group` output for the longer list |
| TourStats.GroupAllSpec | controllers/tourController.js:204-223 | the grouping has one group per key, each the summary of the tours of its key, and covers every tour |
| TourStats.SummaryPriceBounds | controllers/tourController.js:220-222 | within a group, `minPrice * numTours <= sum of prices <= maxPrice * numTours`, so the average lies between the extremes |
| TourStats.SummaryRatingFloor | controllers/tourController.js:219 | a group of matched tours has an average rating of at least 4.5 |
| TourStats.GroupAllCount | controllers/tourController.js:214 | the counts of all groups add up to the number of tours grouped |
| TourStats.Insert | controllers/tourController.js:228 | inserting a group adds exactly that group to the sorted list |
| TourStats.InsertSorted | controllers/tourController.js:228 | inserting into a list sorted by average price keeps it sorted |
| TourStats.SortByAvgPrice | controllers/tourController.js:228 | the output is a permutation of the groups, sorted by non-decreasing average price |
| TourStats.AvgPrice | controllers/tourController.js:220 | `$avg` of the prices of a group, as the exact quotient of the price sum by the count; `AvgPriceLeIff` ties the sort comparison to it and `StatsBounds` places it between the extremes |
| TourStats.AvgPriceLeIff | controllers/tourController.js:220 | comparing by cross-multiplication agrees with comparing the averages |
| TourStats.SortedAvgOrder | controllers/tourController.js:228 | in a sorted list every earlier group has an average price no greater than every later one |
| TourStats.SortGroupsOf | controllers/tourController.js:228 | sorting keeps the groups a correct `$group` output |
| TourStats.SortTotalTours | controllers/tourController.js:228 | sorting keeps the total count |
| TourStats.Stats | controllers/tourController.js:196-235 | the pipeline: `$match`, then `$group`, then `$sort`; `StatsGroups`, `StatsCount`, `StatsBounds` and `StatsOrdered` state its result |
| TourStats.StatsGroups | controllers/tourController.js:196-235 | the pipeline yields one group per distinct upper-cased difficulty of the matched tours, and nothing else; each group summarises exactly the matched tours of its key |
| TourStats.SameDifficultySameGroup | controllers/tourController.js:210 | two matched tours whose difficulties differ only in letter case land in the same group |
| TourStats.StatsCount | controllers/tourController.js:201-214 | the counts of the output groups add up to the number of tours that pass `$match` |
| TourStats.StatsBounds | controllers/tourController.js:214-222 | every output group counts at least one tour, has its average price between its minimum and maximum, and has an average rating of at least 4.5 |
| TourStats.StatsOrdered | controllers/tourController.js:228 | the output groups come by non-decreasing average price |
| TourStats.StatsScenario | controllers/tourController.js:196-235 | two easy tours at 100 and 200 and a medium one at 300 give EASY (two tours, 30 ratings, prices 100 to 200) before MEDIUM |

## Left out

- Executing the query: the Mongoose query engine, MongoDB and the `await` points. The query is the list of refinements asked for, so what `find`, `sort`, `select`, `skip` and `limit` return is not modelled.
- QueryParams.RewriteValue, QueryParams.RewriteFields, QueryParams.FilterConditions: JSON serialisation. The rewrite is applied to keys and strings of the parsed value instead of to the JSON text. A token that follows an escaped control character (`\n` followed by `gt`) is rewritten by the model, but not in the JSON text, where the escape letter joins the word.
- NumberCoercion.StringToNumber, NumberCoercion.StringToNumberNaN, QueryParams.NumberOf: JavaScript number coercion beyond optionally signed decimal integers: whitespace, fractions, exponents, hexadecimal and `Infinity` are not read. The empty string reads as 0. A fraction such as `2.5` reads as NaN in the model and so falls back to the default, where JavaScript would use 2.5.
- NumberCoercion.StringToNumber, ApiFeatures.SkipCount: `page`, `limit` and `skip` are exact integers. JavaScript computes them as doubles, so it rounds numerals and products beyond 2^53, and the model does not.
- The HTTP handlers `getTour`, `createTour`, `updateTour` and `deleteTour`, the JSend response envelopes and the status codes. The 404 of `getAllTours` is the `Err` of `GetAllTours`.
- `$toUpper` handles ASCII letters only; other characters keep their case.
- TourStats.Stats: the order in which MongoDB emits `$group` results is unspecified, and the order of groups with equal average price after `$sort` is too. The model emits groups in order of first appearance and sorts stably, so its tie order is one of the orders MongoDB may produce.
- Floating point: ratings are whole tenths and averages are sums and counts, so `avgRating` and `avgPrice` are not computed as floats.
- The tour schema's validation, its defaults and its other fields (models/tourModel.js): a tour in the statistics holds only its name and the fields the pipeline reads (`difficulty`, `ratingsAverage`, `ratingsQuantity`, `price`).
- Express wiring, routing, logging, the server and the database connection (app.js, server.js, routes/tourRoutes.js, routes/userRoutes.js), and the data import script (dev-data/data/import-dev-data.js).
