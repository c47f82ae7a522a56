/**
 * The comparison-operator rewrite of `APIFeatures.filter`: the serialised
 * filter object goes through `replace(/\b(gte|gt|lte|lt)\b/g, m => '$' + m)`.
 *
 * `Rewrite` scans a string token by token (a maximal run of word characters,
 * or one other character); `Replaced` is the regular expression's own
 * semantics, position by position.  They agree (`RewriteIsRegexReplace`), and
 * `Restore` undoes the rewrite (`RestoreRewrite`), so the rewrite is injective.
 */
module OperatorRewrite {

  /** The character class `\w` of a JavaScript regular expression. */
  predicate IsWordChar(c: char) {
    ('a' <= c <= 'z') || ('A' <= c <= 'Z') || ('0' <= c <= '9') || c == '_'
  }

  /** The alternatives of the pattern. */
  const Operators: set<string> := {"gte", "gt", "lte", "lt"}

  /** End of the maximal run of word characters that starts at `i`. */
  function WordEnd(s: string, i: nat): (e: nat)
    requires i <= |s|
    ensures i <= e <= |s|
    ensures e < |s| ==> !IsWordChar(s[e])
    ensures i < |s| && IsWordChar(s[i]) ==> i < e
    decreases |s| - i
  {
    if i == |s| || !IsWordChar(s[i]) then i else WordEnd(s, i + 1)
  }

  /** The rewrite of `s[i..]`, token by token: an operator word gets a `$`. */
  function RewriteFrom(s: string, i: nat): string
    requires i <= |s|
    decreases |s| - i
  {
    if i == |s| then []
    else if !IsWordChar(s[i]) then [s[i]] + RewriteFrom(s, i + 1)
    else
      var e := WordEnd(s, i);
      (if s[i..e] in Operators then "$" + s[i..e] else s[i..e]) + RewriteFrom(s, e)
  }

  /** The rewrite of a whole string. */
  function Rewrite(s: string): string {
    RewriteFrom(s, 0)
  }

  lemma {:induction false} WordEndChars(s: string, i: nat)
    requires i <= |s|
    ensures forall k :: i <= k < WordEnd(s, i) ==> IsWordChar(s[k])
    decreases |s| - i
  {
    if i < |s| && IsWordChar(s[i]) {
      WordEndChars(s, i + 1);
    }
  }

  lemma {:induction false} WordEndExact(s: string, i: nat, e: nat)
    requires i <= e <= |s|
    requires forall k :: i <= k < e ==> IsWordChar(s[k])
    requires e == |s| || !IsWordChar(s[e])
    ensures WordEnd(s, i) == e
    decreases e - i
  {
    if i < e {
      WordEndExact(s, i + 1, e);
    }
  }

  // ---------------------------------------------------------------------
  // Reference semantics of the global regular-expression replace
  // ---------------------------------------------------------------------

  /** Alternative `op` followed by `\b` matches at position `i` of `s`. */
  predicate OperatorAt(s: string, i: nat, op: string) {
    i + |op| <= |s| && s[i..i + |op|] == op &&
    (i + |op| == |s| || !IsWordChar(s[i + |op|]))
  }

  /** `\b(gte|gt|lte|lt)\b` matches at position `i` of `s`. */
  predicate MatchAt(s: string, i: nat) {
    i < |s| && (i == 0 || !IsWordChar(s[i - 1])) &&
    (OperatorAt(s, i, "gte") || OperatorAt(s, i, "gt") ||
     OperatorAt(s, i, "lte") || OperatorAt(s, i, "lt"))
  }

  /** The positions where the pattern matches. */
  function Matches(s: string): set<nat> {
    set i: nat | i < |s| && MatchAt(s, i)
  }

  /** `s[i..]` with a `$` inserted in front of every position in `marks`. */
  function Marked(s: string, marks: set<nat>, i: nat): string
    requires i <= |s|
    decreases |s| - i
  {
    if i == |s| then []
    else (if i in marks then ['$', s[i]] else [s[i]]) + Marked(s, marks, i + 1)
  }

  /** The global replace: a `$` goes in front of every match. */
  function Replaced(s: string): string {
    Marked(s, Matches(s), 0)
  }

  /** `i` is not strictly inside a run of word characters. */
  predicate AtBoundary(s: string, i: nat)
    requires i <= |s|
  {
    i == 0 || i == |s| || !IsWordChar(s[i - 1]) || !IsWordChar(s[i])
  }

  /** Where nothing is marked, the text is copied. */
  lemma {:induction false} MarkedCopies(s: string, marks: set<nat>, i: nat, e: nat)
    requires i <= e <= |s|
    requires forall k :: i <= k < e ==> k !in marks
    ensures Marked(s, marks, i) == s[i..e] + Marked(s, marks, e)
    decreases e - i
  {
    if i < e {
      assert i !in marks;
      var rest := Marked(s, marks, e);
      MarkedCopies(s, marks, i + 1, e);
      calc {
        Marked(s, marks, i);
        [s[i]] + Marked(s, marks, i + 1);
        [s[i]] + (s[i + 1..e] + rest);
        ([s[i]] + s[i + 1..e]) + rest;
        { assert [s[i]] + s[i + 1..e] == s[i..e]; }
        s[i..e] + rest;
      }
    }
  }

  lemma PrefixRun(x: string, y: string, w: string, c: char, u: string, r: string, b: bool)
    requires x == (if b then ['$', c] else [c]) + y
    requires y == u + r && w == [c] + u
    ensures x == (if b then "$" + w else w) + r
  {
    if b {
      assert ['$', c] + (u + r) == ("$" + ([c] + u)) + r;
    } else {
      assert [c] + (u + r) == ([c] + u) + r;
    }
  }

  /** A run `s[i..e]` marked at most at its start. */
  lemma MarkedRun(s: string, marks: set<nat>, i: nat, e: nat)
    requires i < e <= |s|
    requires forall k :: i < k < e ==> k !in marks
    ensures Marked(s, marks, i) == (if i in marks then "$" + s[i..e] else s[i..e]) + Marked(s, marks, e)
  {
    MarkedCopies(s, marks, i + 1, e);
    var w := s[i..e];
    assert w == [s[i]] + s[i + 1..e];
    PrefixRun(Marked(s, marks, i), Marked(s, marks, i + 1), w, s[i], s[i + 1..e], Marked(s, marks, e), i in marks);
  }

  /** One alternative matches at the start of a word run iff it is the whole run. */
  lemma OperatorAtRunStart(s: string, i: nat, op: string)
    requires i < |s| && IsWordChar(s[i])
    requires op in Operators
    ensures OperatorAt(s, i, op) <==> s[i..WordEnd(s, i)] == op
  {
    var e := WordEnd(s, i);
    if OperatorAt(s, i, op) {
      assert forall k :: i <= k < i + |op| ==> s[k] == op[k - i];
      WordEndExact(s, i, i + |op|);
    }
  }

  /** At the start of a maximal word run, the pattern matches iff the run is an operator. */
  lemma MatchAtRunStart(s: string, i: nat)
    requires i < |s| && IsWordChar(s[i])
    requires i == 0 || !IsWordChar(s[i - 1])
    ensures i in Matches(s) <==> s[i..WordEnd(s, i)] in Operators
  {
    OperatorAtRunStart(s, i, "gte");
    OperatorAtRunStart(s, i, "gt");
    OperatorAtRunStart(s, i, "lte");
    OperatorAtRunStart(s, i, "lt");
  }

  /** Inside a word run, after its first character, the pattern never matches. */
  lemma NoMatchInsideRun(s: string, i: nat)
    requires i < |s|
    ensures forall k :: i < k < WordEnd(s, i) ==> k !in Matches(s)
  {
    WordEndChars(s, i);
    forall k | i < k < WordEnd(s, i)
      ensures !MatchAt(s, k)
    {
      assert IsWordChar(s[k - 1]);
    }
  }

  /** Every alternative starts with a word character, and so does every match. */
  lemma MatchStartsWord(s: string, i: nat)
    requires MatchAt(s, i)
    ensures IsWordChar(s[i])
  {
    if OperatorAt(s, i, "gte") {
      assert s[i..i + 3][0] == s[i];
    } else if OperatorAt(s, i, "gt") {
      assert s[i..i + 2][0] == s[i];
    } else if OperatorAt(s, i, "lte") {
      assert s[i..i + 3][0] == s[i];
    } else {
      assert s[i..i + 2][0] == s[i];
    }
  }

  lemma {:induction false} RewriteFromIsReplaced(s: string, i: nat)
    requires i <= |s| && AtBoundary(s, i)
    ensures RewriteFrom(s, i) == Marked(s, Matches(s), i)
    decreases |s| - i
  {
    if i == |s| {
    } else if !IsWordChar(s[i]) {
      if MatchAt(s, i) {
        MatchStartsWord(s, i);
      }
      RewriteFromIsReplaced(s, i + 1);
    } else {
      var e := WordEnd(s, i);
      MatchAtRunStart(s, i);
      NoMatchInsideRun(s, i);
      MarkedRun(s, Matches(s), i, e);
      RewriteFromIsReplaced(s, e);
    }
  }

  /** The token scan computes exactly the global regular-expression replace. */
  lemma RewriteIsRegexReplace(s: string)
    ensures Rewrite(s) == Replaced(s)
  {
    RewriteFromIsReplaced(s, 0);
  }

  lemma {:induction false} MarkedLength(s: string, marks: set<nat>, i: nat)
    requires i <= |s|
    ensures |Marked(s, marks, i)| == |s| - i + |set k: nat | i <= k < |s| && k in marks|
    decreases |s| - i
  {
    var here := set k: nat | i <= k < |s| && k in marks;
    if i == |s| {
      assert here == {};
    } else {
      MarkedLength(s, marks, i + 1);
      var later := set k: nat | i + 1 <= k < |s| && k in marks;
      assert here == later + (if i in marks then {i} else {});
      assert i !in later;
    }
  }

  /** The rewrite adds one character per matched token and nothing else. */
  lemma RewriteLength(s: string)
    ensures |Rewrite(s)| == |s| + |Matches(s)|
  {
    RewriteIsRegexReplace(s);
    MarkedLength(s, Matches(s), 0);
    assert (set k: nat | 0 <= k < |s| && k in Matches(s)) == Matches(s);
  }

  /** A string is left as it is exactly when no operator token occurs in it. */
  lemma RewriteUnchangedIff(s: string)
    ensures Rewrite(s) == s <==> Matches(s) == {}
  {
    RewriteLength(s);
    if Matches(s) == {} {
      RewriteIsRegexReplace(s);
      MarkedCopies(s, Matches(s), 0, |s|);
      assert s[0..|s|] == s;
    }
  }

  // ---------------------------------------------------------------------
  // The rewrite is injective
  // ---------------------------------------------------------------------

  /**
   * The token of `t` at `j` with its `$` dropped when it is a `$` followed by
   * an operator word, and the position after it.
   */
  function RestoreToken(t: string, j: nat): (r: (string, nat))
    requires j < |t|
    ensures j < r.1 <= |t|
  {
    if t[j] == '$' && j + 1 < |t| && t[j + 1..WordEnd(t, j + 1)] in Operators then
      (t[j + 1..WordEnd(t, j + 1)], WordEnd(t, j + 1))
    else if !IsWordChar(t[j]) then ([t[j]], j + 1)
    else (t[j..WordEnd(t, j)], WordEnd(t, j))
  }

  /** Undoes the rewrite of `t[j..]`: drops the `$` in front of each operator word. */
  function RestoreFrom(t: string, j: nat): string
    requires j <= |t|
    decreases |t| - j
  {
    if j == |t| then []
    else
      var (piece, next) := RestoreToken(t, j);
      piece + RestoreFrom(t, next)
  }

  function Restore(t: string): string {
    RestoreFrom(t, 0)
  }

  lemma {:induction false} WordEndShift(p: string, x: string, j: nat)
    requires j <= |x|
    ensures WordEnd(p + x, |p| + j) == |p| + WordEnd(x, j)
    decreases |x| - j
  {
    if j < |x| {
      assert (p + x)[|p| + j] == x[j];
      WordEndShift(p, x, j + 1);
    }
  }

  lemma RestoreTokenShift(p: string, x: string, j: nat)
    requires j < |x|
    ensures var (piece, next) := RestoreToken(x, j);
      RestoreToken(p + x, |p| + j) == (piece, |p| + next)
  {
    var t := p + x;
    var n := |p|;
    assert t[n + j] == x[j];
    if j + 1 < |x| {
      WordEndShift(p, x, j + 1);
      assert t[n + j + 1..WordEnd(t, n + j + 1)] == x[j + 1..WordEnd(x, j + 1)];
    }
    WordEndShift(p, x, j);
    assert t[n + j..WordEnd(t, n + j)] == x[j..WordEnd(x, j)];
  }

  /** The restore only looks forward, so a prefix does not change it. */
  lemma {:induction false} RestoreShift(p: string, x: string, j: nat)
    requires j <= |x|
    ensures RestoreFrom(p + x, |p| + j) == RestoreFrom(x, j)
    decreases |x| - j
  {
    if j < |x| {
      var (piece, next) := RestoreToken(x, j);
      RestoreTokenShift(p, x, j);
      calc {
        RestoreFrom(p + x, |p| + j);
        piece + RestoreFrom(p + x, |p| + next);
        { RestoreShift(p, x, next); }
        piece + RestoreFrom(x, next);
        RestoreFrom(x, j);
      }
    }
  }

  /** What follows a word run in the rewrite starts with a non-word character. */
  lemma RewriteAfterRun(s: string, e: nat)
    requires e <= |s| && (e == |s| || !IsWordChar(s[e]))
    ensures RewriteFrom(s, e) == [] || !IsWordChar(RewriteFrom(s, e)[0])
  {
  }

  /** The rewrite of `s[i..]` never starts with an operator word. */
  lemma LeadingRunOfRewrite(s: string, i: nat)
    requires i <= |s| && AtBoundary(s, i)
    ensures var r := RewriteFrom(s, i); r[0..WordEnd(r, 0)] !in Operators
  {
    var r := RewriteFrom(s, i);
    if i < |s| && IsWordChar(s[i]) {
      var e := WordEnd(s, i);
      var w := s[i..e];
      if w !in Operators {
        RewriteAfterRun(s, e);
        assert r == w + RewriteFrom(s, e);
        WordEndChars(s, i);
        WordEndExact(r, 0, |w|);
        assert r[0..|w|] == w;
      }
    }
  }

  lemma RestoreNonWord(c: char, rest: string)
    requires !IsWordChar(c)
    requires rest[0..WordEnd(rest, 0)] !in Operators
    ensures RestoreFrom([c] + rest, 0) == [c] + RestoreFrom(rest, 0)
  {
    var t := [c] + rest;
    WordEndShift([c], rest, 0);
    assert t[1..WordEnd(t, 1)] == rest[0..WordEnd(rest, 0)];
    RestoreShift([c], rest, 0);
  }

  lemma OperatorWordChars(w: string)
    requires w in Operators
    ensures forall k :: 0 <= k < |w| ==> IsWordChar(w[k])
  {
    if w == "gte" {
    } else if w == "gt" {
    } else if w == "lte" {
    } else {
      assert w == "lt";
    }
  }

  lemma SliceCons(s: string, i: nat)
    requires i < |s|
    ensures s[i..] == [s[i]] + s[i + 1..]
  {
  }

  lemma SliceSplit(s: string, i: nat, e: nat)
    requires i <= e <= |s|
    ensures s[i..] == s[i..e] + s[e..]
  {
  }

  lemma RestoreOperator(w: string, rest: string)
    requires w in Operators
    requires rest == [] || !IsWordChar(rest[0])
    ensures RestoreFrom("$" + w + rest, 0) == w + RestoreFrom(rest, 0)
  {
    var t := "$" + w + rest;
    var n := |w|;
    OperatorWordChars(w);
    assert forall k :: 1 <= k < 1 + n ==> t[k] == w[k - 1];
    WordEndExact(t, 1, 1 + n);
    assert t[1..1 + n] == w;
    RestoreShift("$" + w, rest, 0);
  }

  lemma RestorePlain(w: string, rest: string)
    requires 0 < |w| && w !in Operators
    requires forall k :: 0 <= k < |w| ==> IsWordChar(w[k])
    requires rest == [] || !IsWordChar(rest[0])
    ensures RestoreFrom(w + rest, 0) == w + RestoreFrom(rest, 0)
  {
    var t := w + rest;
    WordEndExact(t, 0, |w|);
    assert t[0..|w|] == w;
    RestoreShift(w, rest, 0);
  }

  lemma RestoreStepNonWord(s: string, i: nat)
    requires i < |s| && !IsWordChar(s[i])
    ensures RestoreFrom(RewriteFrom(s, i), 0) == [s[i]] + RestoreFrom(RewriteFrom(s, i + 1), 0)
  {
    var rest := RewriteFrom(s, i + 1);
    LeadingRunOfRewrite(s, i + 1);
    assert rest[0..WordEnd(rest, 0)] !in Operators;
    RestoreNonWord(s[i], rest);
  }

  lemma RestoreStepWord(s: string, i: nat)
    requires i < |s| && IsWordChar(s[i])
    ensures RestoreFrom(RewriteFrom(s, i), 0) == s[i..WordEnd(s, i)] + RestoreFrom(RewriteFrom(s, WordEnd(s, i)), 0)
  {
    var e := WordEnd(s, i);
    var w := s[i..e];
    var rest := RewriteFrom(s, e);
    RewriteAfterRun(s, e);
    if w in Operators {
      RestoreOperator(w, rest);
    } else {
      WordEndChars(s, i);
      RestorePlain(w, rest);
    }
  }

  lemma {:induction false} RestoreRewriteFrom(s: string, i: nat)
    requires i <= |s| && AtBoundary(s, i)
    ensures RestoreFrom(RewriteFrom(s, i), 0) == s[i..]
    decreases |s| - i
  {
    if i == |s| {
    } else if !IsWordChar(s[i]) {
      RestoreStepNonWord(s, i);
      RestoreRewriteFrom(s, i + 1);
      SliceCons(s, i);
    } else {
      var e := WordEnd(s, i);
      RestoreStepWord(s, i);
      RestoreRewriteFrom(s, e);
      SliceSplit(s, i, e);
    }
  }

  /** Restoring the rewritten string gives the original back. */
  lemma RestoreRewrite(s: string)
    ensures Restore(Rewrite(s)) == s
  {
    RestoreRewriteFrom(s, 0);
  }

  lemma RestoreRewriteAll()
    ensures forall s :: Restore(Rewrite(s)) == s
  {
    forall s
      ensures Restore(Rewrite(s)) == s
    {
      RestoreRewrite(s);
    }
  }

  /** Distinct strings stay distinct, so rewritten object keys never collide. */
  lemma RewriteInjective()
    ensures forall a, b :: Rewrite(a) == Rewrite(b) ==> a == b
  {
    RestoreRewriteAll();
  }

  /**
   * Not idempotent: rewriting twice equals rewriting once only on strings
   * without operator tokens, since an inserted `$` is not a word character.
   */
  lemma RewriteTwiceIff(s: string)
    ensures Rewrite(Rewrite(s)) == Rewrite(s) <==> Matches(s) == {}
  {
    RewriteUnchangedIff(s);
    if Rewrite(Rewrite(s)) == Rewrite(s) {
      RewriteInjective();
    }
  }

  /** The operator words, words that only contain one, and a second pass. */
  lemma RewriteExamples()
    ensures Rewrite("gte") == "$gte"
    ensures Rewrite("$gte") == "$$gte"
    ensures Rewrite("gtex") == "gtex" && Rewrite("agt") == "agt"
  {
    WordEndExact("gte", 0, 3);
    assert "gte"[0..3] == "gte";
    WordEndExact("$gte", 1, 4);
    assert "$gte"[1..4] == "gte";
    WordEndExact("gtex", 0, 4);
    assert "gtex"[0..4] == "gtex";
    WordEndExact("agt", 0, 3);
    assert "agt"[0..3] == "agt";
  }
}
