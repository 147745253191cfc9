/**
 * The dataset reader of the cumulative-analysis driver: for each line of the
 * reviews file, strip it, skip it if blank, take the span the regular
 * expression `(\{.*\})` finds, turn every `'` into `"`, and append what
 * `json.loads` makes of it, skipping lines it rejects.
 */
module DatasetReader {
  import opened Exceptions
  import opened Text
  import opened Values

  // ----- the regular expression (\{.*\}) -----

  /**
   * `s[i..j]` is a match of `\{.*\}`: it opens with `{`, closes with `}`, and
   * has no newline (the only character `.` does not match).
   */
  predicate IsMatch(s: string, i: int, j: int)
  {
    && 0 <= i && i + 2 <= j <= |s|
    && s[i] == '{' && s[j - 1] == '}'
    && forall k :: i <= k < j ==> s[k] != '\n'
  }

  /** The first newline at or after `i`, or the end of `s`. */
  function LineEnd(s: string, i: nat): (e: nat)
    requires i <= |s|
    ensures i <= e <= |s|
    ensures forall k :: i <= k < e ==> s[k] != '\n'
    ensures e < |s| ==> s[e] == '\n'
    decreases |s| - i
  {
    if i == |s| || s[i] == '\n' then i else LineEnd(s, i + 1)
  }

  /** The last `}` in `s[lo..hi]`, if any. */
  function LastClose(s: string, lo: nat, hi: nat): (r: Option<nat>)
    requires lo <= hi <= |s|
    ensures r.Some? ==> lo <= r.value < hi && s[r.value] == '}'
    ensures r.Some? ==> forall k :: r.value < k < hi ==> s[k] != '}'
    ensures r.None? ==> forall k :: lo <= k < hi ==> s[k] != '}'
    decreases hi - lo
  {
    if hi == lo then None
    else if s[hi - 1] == '}' then Some(hi - 1)
    else LastClose(s, lo, hi - 1)
  }

  /**
   * `re.search` from position `p`: the leftmost start with a match and, the
   * `.*` being greedy, the longest match there, as a pair of bounds.
   */
  function SearchFrom(s: string, p: nat): (r: Option<(nat, nat)>)
    requires p <= |s|
    ensures r.Some? ==> p <= r.value.0 && IsMatch(s, r.value.0, r.value.1)
    ensures r.Some? ==> forall k, j :: p <= k < r.value.0 ==> !IsMatch(s, k, j)
    ensures r.Some? ==> forall j :: IsMatch(s, r.value.0, j) ==> j <= r.value.1
    ensures r.None? ==> forall k, j :: p <= k ==> !IsMatch(s, k, j)
    decreases |s| - p
  {
    if p == |s| then None
    else
      var close := LastClose(s, p + 1, LineEnd(s, p + 1));
      if s[p] == '{' && close.Some? then
        Some((p, close.value + 1))
      else
        assert forall j :: !IsMatch(s, p, j);
        SearchFrom(s, p + 1)
  }

  /** `match.group(1)` of `re.search(r"(\{.*\})", s)`, or `None` when nothing matches. */
  function BraceSpan(s: string): (r: Option<string>)
    ensures r.None? <==> forall i, j :: !IsMatch(s, i, j)
  {
    match SearchFrom(s, 0)
    case None => None
    case Some((i, j)) => Some(s[i..j])
  }

  /** The first index of `c` in `s`, if any. */
  function FirstIndex(s: string, c: char): (r: Option<nat>)
    ensures r.Some? ==> r.value < |s| && s[r.value] == c && forall k :: 0 <= k < r.value ==> s[k] != c
    ensures r.None? ==> c !in s
  {
    if s == [] then None
    else if s[0] == c then Some(0)
    else match FirstIndex(s[1..], c)
      case None => None
      case Some(i) => Some(i + 1)
  }

  /**
   * On a line without newlines (every line the file iterator yields, once
   * stripped) the span runs from the first `{` to the last `}`, and there is
   * none when no `}` follows the first `{`.
   */
  lemma FirstOpenToLastClose(s: string)
    requires '\n' !in s
    ensures var first, last := FirstIndex(s, '{'), LastClose(s, 0, |s|);
      BraceSpan(s) == if first.Some? && last.Some? && first.value < last.value
                      then Some(s[first.value..last.value + 1]) else None
  {
    var first, last := FirstIndex(s, '{'), LastClose(s, 0, |s|);
    if first.Some? && last.Some? && first.value < last.value {
      SpanBounds(s);
    } else {
      NoPairNoMatch(s);
    }
  }

  /** With a `{` before a `}`, the search finds the first `{` and the last `}`. */
  lemma SpanBounds(s: string)
    requires '\n' !in s
    requires FirstIndex(s, '{').Some? && LastClose(s, 0, |s|).Some?
    requires FirstIndex(s, '{').value < LastClose(s, 0, |s|).value
    ensures SearchFrom(s, 0) == Some((FirstIndex(s, '{').value, LastClose(s, 0, |s|).value + 1))
  {
    var f, l := FirstIndex(s, '{').value, LastClose(s, 0, |s|).value;
    assert IsMatch(s, f, l + 1);
    var r := SearchFrom(s, 0).value;
    assert r.0 <= f;
    assert r.0 == f;
    assert l + 1 <= r.1;
    assert s[r.1 - 1] == '}';
    assert r.1 - 1 <= l;
  }

  /** Without a `{` before a `}` there is no match at all. */
  lemma NoPairNoMatch(s: string)
    requires !(FirstIndex(s, '{').Some? && LastClose(s, 0, |s|).Some? && FirstIndex(s, '{').value < LastClose(s, 0, |s|).value)
    ensures forall i, j :: !IsMatch(s, i, j)
  {
  }

  // ----- one line -----

  /** `s.replace("'", '"')`. */
  function ReplaceQuotes(s: string): (r: string)
    ensures |r| == |s|
    ensures '\'' !in r
    ensures forall i :: 0 <= i < |s| ==> r[i] == (if s[i] == '\'' then '"' else s[i])
  {
    seq(|s|, i requires 0 <= i < |s| => if s[i] == '\'' then '"' else s[i])
  }

  /**
   * What one line adds to `rev_list`: nothing for a blank line, a line without
   * a span or a span `decode` rejects; otherwise the decoded value.
   * `decode` is `json.loads`, with `None` for a `JSONDecodeError`.
   */
  function LineReview(line: string, decode: string -> Option<Value>): (r: seq<Value>)
    ensures |r| <= 1
  {
    var stripped := Strip(line);
    if stripped == "" then [] else SpanReview(stripped, decode)
  }

  /** What a stripped, non-blank line adds: the decoded span, or nothing. */
  function SpanReview(stripped: string, decode: string -> Option<Value>): seq<Value>
  {
    match BraceSpan(stripped)
    case None => []
    case Some(span) =>
      match decode(ReplaceQuotes(span))
      case None => []
      case Some(v) => [v]
  }

  /** The specification of the loop: each line's contribution, in file order. */
  function ReviewsOf(lines: seq<string>, decode: string -> Option<Value>): seq<Value>
  {
    Gather(lines, line => LineReview(line, decode))
  }

  /** The concatenation of `f` of each element, in order. */
  function Gather<T, U>(xs: seq<T>, f: T -> seq<U>): seq<U>
  {
    if xs == [] then [] else Gather(xs[..|xs| - 1], f) + f(xs[|xs| - 1])
  }

  lemma GatherSnoc<T, U>(xs: seq<T>, x: T, f: T -> seq<U>)
    ensures Gather(xs + [x], f) == Gather(xs, f) + f(x)
  {
    assert (xs + [x])[..|xs|] == xs;
  }

  lemma {:induction false} GatherAppend<T, U>(a: seq<T>, b: seq<T>, f: T -> seq<U>)
    ensures Gather(a + b, f) == Gather(a, f) + Gather(b, f)
    decreases |b|
  {
    if b == [] {
      assert a + b == a;
    } else {
      var b' := b[..|b| - 1];
      assert (a + b)[..|a + b| - 1] == a + b';
      GatherAppend(a, b', f);
    }
  }

  /** The loop over the lines of the reviews file, appending to `rev_list` in place. */
  method ReadReviews(lines: seq<string>, decode: string -> Option<Value>) returns (revList: seq<Value>)
    ensures revList == ReviewsOf(lines, decode)
    ensures |revList| <= |lines|
  {
    revList := [];
    for i := 0 to |lines|
      invariant revList == ReviewsOf(lines[..i], decode)
      invariant |revList| <= i
    {
      assert lines[..i + 1][..i] == lines[..i];
      var line := Strip(lines[i]);
      if line == "" {
        continue;
      }
      var found := BraceSpan(line);
      if found.Some? {
        var dictStr := ReplaceQuotes(found.value);
        var reviewDict := decode(dictStr);
        if reviewDict.Some? {
          revList := revList + [reviewDict.value];
        }
      }
    }
    assert lines[..|lines|] == lines;
  }

  // ----- properties of the reader -----

  /** Reading two parts of a file one after the other gives the two results in order. */
  lemma ReviewsOfAppend(a: seq<string>, b: seq<string>, decode: string -> Option<Value>)
    ensures ReviewsOf(a + b, decode) == ReviewsOf(a, decode) + ReviewsOf(b, decode)
  {
    GatherAppend(a, b, line => LineReview(line, decode));
  }

  /** One more line at the end adds that line's contribution at the end. */
  lemma ReviewsOfSnoc(lines: seq<string>, line: string, decode: string -> Option<Value>)
    ensures ReviewsOf(lines + [line], decode) == ReviewsOf(lines, decode) + LineReview(line, decode)
  {
    GatherSnoc(lines, line, l => LineReview(l, decode));
  }

  /** Each line adds at most one review, so `rev_list` is never longer than the file. */
  lemma {:induction false} ReviewsOfBound(lines: seq<string>, decode: string -> Option<Value>)
    ensures |ReviewsOf(lines, decode)| <= |lines|
    decreases |lines|
  {
    if lines != [] {
      ReviewsOfBound(lines[..|lines| - 1], decode);
    }
  }

  /** A blank or whitespace-only line, wherever it stands, contributes nothing. */
  lemma BlankLineIgnored(before: seq<string>, blank: string, after: seq<string>, decode: string -> Option<Value>)
    requires forall i :: 0 <= i < |blank| ==> IsSpace(blank[i])
    ensures ReviewsOf(before + [blank] + after, decode) == ReviewsOf(before + after, decode)
  {
    assert LineReview(blank, decode) == [];
    OneLine(blank, decode);
    ReviewsOfAppend(before, [blank], decode);
    ReviewsOfAppend(before + [blank], after, decode);
    ReviewsOfAppend(before, after, decode);
  }

  /**
   * The reference reading of a stripped, newline-free line: the decoded span
   * from its first `{` to its last `}` when a `}` follows the first `{`,
   * otherwise nothing.
   */
  function FirstToLastReview(s: string, decode: string -> Option<Value>): seq<Value>
  {
    var first, last := FirstIndex(s, '{'), LastClose(s, 0, |s|);
    if first.Some? && last.Some? && first.value < last.value then
      match decode(ReplaceQuotes(s[first.value..last.value + 1]))
      case None => []
      case Some(v) => [v]
    else []
  }

  /**
   * A line as the file iterator yields it (no newline except, possibly, the
   * one that ends it) whose first `{` comes before its last `}` contributes
   * exactly what `decode` makes of that span with `'` turned into `"`; any
   * other line contributes nothing.
   */
  lemma LineContribution(line: string, decode: string -> Option<Value>)
    requires IteratorLine(line)
    ensures ReviewsOf([line], decode) == FirstToLastReview(Strip(line), decode)
  {
    var s := Strip(line);
    StripKeepsNoNewline(line);
    OneLine(line, decode);
    if s == "" {
      assert FirstIndex(s, '{') == None;
    } else {
      SpanContribution(s, decode);
    }
  }

  /** A line as the file iterator yields it: no newline except, possibly, its last character. */
  predicate IteratorLine(line: string)
  {
    forall k :: 0 <= k < |line| - 1 ==> line[k] != '\n'
  }

  /**
   * Over a whole file, `rev_list` is the reference reading of each stripped
   * line, in file order.
   */
  lemma {:induction false} FileContribution(lines: seq<string>, decode: string -> Option<Value>)
    requires forall i :: 0 <= i < |lines| ==> IteratorLine(lines[i])
    ensures ReviewsOf(lines, decode) == Gather(lines, line => FirstToLastReview(Strip(line), decode))
    decreases |lines|
  {
    if lines != [] {
      var init, last := lines[..|lines| - 1], lines[|lines| - 1];
      assert lines == init + [last];
      FileContribution(init, decode);
      LineContribution(last, decode);
      OneLine(last, decode);
      ReviewsOfSnoc(init, last, decode);
      GatherSnoc(init, last, line => FirstToLastReview(Strip(line), decode));
    }
  }

  /** `SpanReview` on a newline-free line agrees with the reference reading. */
  lemma SpanContribution(s: string, decode: string -> Option<Value>)
    requires '\n' !in s
    ensures SpanReview(s, decode) == FirstToLastReview(s, decode)
  {
    FirstOpenToLastClose(s);
  }

  /**
   * Stripping removes the newline that ends a line of the file, so a line with
   * no other newline is newline-free once stripped.
   */
  lemma StripKeepsNoNewline(line: string)
    requires IteratorLine(line)
    ensures '\n' !in Strip(line)
  {
    var s := Strip(line);
    var lead := LeadingSpaces(line);
    forall k | 0 <= k < |s| ensures s[k] != '\n' {
      assert s[k] == line[lead + k];
      if lead + k == |line| - 1 {
        assert k == |s| - 1 && !IsSpace(s[k]);
      }
    }
  }

  /** The trailing newline of a line is removed by stripping. */
  lemma StripDropsNewline(body: string)
    requires '\n' !in body
    ensures '\n' !in Strip(body + "\n")
  {
    var line := body + "\n";
    forall k | 0 <= k < |line| - 1 ensures line[k] != '\n' {
      assert line[k] == body[k];
    }
    StripKeepsNoNewline(line);
  }

  /** A file of one line holds that line's contribution. */
  lemma OneLine(line: string, decode: string -> Option<Value>)
    ensures ReviewsOf([line], decode) == LineReview(line, decode)
  {
    ReviewsOfSnoc([], line, decode);
    assert [] + [line] == [line];
  }

  /** A line whose span cannot be decoded is skipped, and the rest are kept in order. */
  lemma BadLineSkipped(before: seq<string>, bad: string, after: seq<string>, decode: string -> Option<Value>)
    requires BraceSpan(Strip(bad)).Some? && decode(ReplaceQuotes(BraceSpan(Strip(bad)).value)).None?
    ensures ReviewsOf(before + [bad] + after, decode) == ReviewsOf(before, decode) + ReviewsOf(after, decode)
  {
    assert Strip(bad) != "";
    OneLine(bad, decode);
    ReviewsOfAppend(before, [bad], decode);
    ReviewsOfAppend(before + [bad], after, decode);
  }
}
