/**
 * `split(',').join(' ')`, which `APIFeatures.sort` and `APIFeatures.limitFields`
 * use to turn a comma list of field names into the space list Mongoose reads.
 */
module CommaList {

  /** `s.split(sep)`: the pieces between separators, in order; never empty. */
  function Split(s: string, sep: char): (parts: seq<string>)
    ensures |parts| >= 1
    ensures forall k :: 0 <= k < |parts| ==> sep !in parts[k]
    decreases |s|
  {
    if s == [] then [[]]
    else
      var rest := Split(s[1..], sep);
      if s[0] == sep then [[]] + rest else [[s[0]] + rest[0]] + rest[1..]
  }

  /** `parts.join(d)`. */
  function Join(parts: seq<string>, d: char): string
    decreases |parts|
  {
    if parts == [] then []
    else if |parts| == 1 then parts[0]
    else parts[0] + [d] + Join(parts[1..], d)
  }

  /** Every `c` of `s` replaced by `d`, every other character kept in place. */
  ghost predicate IsReplacement(r: string, s: string, c: char, d: char) {
    |r| == |s| && forall i :: 0 <= i < |s| ==> r[i] == (if s[i] == c then d else s[i])
  }

  lemma JoinCons(p: string, parts: seq<string>, d: char)
    requires |parts| >= 1
    ensures Join([p] + parts, d) == p + [d] + Join(parts, d)
  {
    assert ([p] + parts)[1..] == parts;
  }

  /** Splitting on `c` and joining with `d` replaces each `c` by `d`. */
  lemma {:induction false} JoinSplit(s: string, c: char, d: char)
    ensures IsReplacement(Join(Split(s, c), d), s, c, d)
    decreases |s|
  {
    if s != [] {
      var rest := Split(s[1..], c);
      JoinSplit(s[1..], c, d);
      var tail := Join(rest, d);
      if s[0] == c {
        JoinCons([], rest, d);
        assert Join(Split(s, c), d) == [d] + tail;
      } else {
        if |rest| == 1 {
          assert Join(Split(s, c), d) == [s[0]] + tail;
        } else {
          JoinCons([s[0]] + rest[0], rest[1..], d);
          JoinCons(rest[0], rest[1..], d);
          assert [rest[0]] + rest[1..] == rest;
          assert Join(Split(s, c), d) == [s[0]] + tail;
        }
      }
    }
  }

  /** Splitting text with no separator in front of `y`. */
  lemma {:induction false} SplitPrefix(x: string, y: string, sep: char)
    requires sep !in x
    ensures Split(x + y, sep) == [x + Split(y, sep)[0]] + Split(y, sep)[1..]
    decreases |x|
  {
    if x != [] {
      var sy := Split(y, sep);
      assert (x + y)[0] == x[0] && (x + y)[1..] == x[1..] + y;
      SplitPrefix(x[1..], y, sep);
      var r := Split(x[1..] + y, sep);
      assert r[0] == x[1..] + sy[0] && r[1..] == sy[1..];
      assert Split(x + y, sep) == [[x[0]] + r[0]] + r[1..];
      assert [x[0]] + (x[1..] + sy[0]) == x + sy[0];
    } else {
      var sy := Split(y, sep);
      assert x + y == y && x + sy[0] == sy[0];
      assert [sy[0]] + sy[1..] == sy;
    }
  }

  /**
   * Joining pieces with `d` and splitting on `d` gives the pieces back, so the
   * space list names the same fields in the same order.
   */
  lemma {:induction false} SplitJoin(parts: seq<string>, d: char)
    requires |parts| >= 1
    requires forall k :: 0 <= k < |parts| ==> d !in parts[k]
    ensures Split(Join(parts, d), d) == parts
    decreases |parts|
  {
    if |parts| == 1 {
      SplitPrefix(parts[0], [], d);
      assert parts[0] + [] == parts[0];
    } else {
      var tail := Join(parts[1..], d);
      SplitJoin(parts[1..], d);
      assert Join(parts, d) == parts[0] + ([d] + tail);
      SplitPrefix(parts[0], [d] + tail, d);
      assert ([d] + tail)[0] == d && ([d] + tail)[1..] == tail;
      assert Split([d] + tail, d) == [[]] + parts[1..];
      assert parts[0] + [] == parts[0];
      assert parts == [parts[0]] + parts[1..];
    }
  }

  /** Rejoining the pieces with the separator gives back the original text. */
  lemma JoinSplitRoundTrip(s: string, sep: char)
    ensures Join(Split(s, sep), sep) == s
  {
    JoinSplit(s, sep, sep);
  }

  /**
   * The comma-to-space conversion keeps the field list: splitting its result on
   * spaces gives the pieces between the commas, when the input has no space.
   */
  lemma SpaceListFields(s: string)
    requires ' ' !in s
    ensures Split(Join(Split(s, ','), ' '), ' ') == Split(s, ',')
  {
    var parts := Split(s, ',');
    forall k | 0 <= k < |parts|
      ensures ' ' !in parts[k]
    {
      SplitPieces(s, ',', k);
    }
    SplitJoin(parts, ' ');
  }

  /** Each piece of a split is made of characters of the input. */
  lemma {:induction false} SplitPieces(s: string, sep: char, k: nat)
    requires k < |Split(s, sep)|
    ensures forall c :: c in Split(s, sep)[k] ==> c in s
    decreases |s|
  {
    if s != [] {
      var rest := Split(s[1..], sep);
      if s[0] == sep {
        if k > 0 {
          SplitPieces(s[1..], sep, k - 1);
        }
      } else if k == 0 {
        SplitPieces(s[1..], sep, 0);
      } else {
        SplitPieces(s[1..], sep, k);
      }
    }
  }
}
