/**
 * The batch serialiser of the cumulative-analysis service: a list of
 * classified review dicts becomes one text block, three lines per review,
 * which is sent to the model under the prompt variable `reviews`.
 */
module ReviewFormatter {
  import opened Exceptions
  import opened Text
  import opened Values
  import opened RequestGuard

  /** Does `r[key]` succeed? */
  predicate HasKey(r: Value, key: string)
  {
    r.PyDict? && Lookup(r.entries, key).Some?
  }

  /** `r[key]` for a dict known to have the key. */
  function Field(r: Value, key: string): Value
    requires HasKey(r, key)
  {
    Lookup(r.entries, key).value
  }

  /** A dict with all three keys the serialiser reads. */
  predicate Complete(r: Value)
  {
    HasKey(r, "text") && HasKey(r, "sentiment") && HasKey(r, "tags")
  }

  /** The three lines of a block, for the rendered text, sentiment and tags. */
  function BlockLines(text: string, sentiment: string, tags: string): string
  {
    "Review: " + text + "\nSentiment: " + sentiment + "\nTag: " + tags
  }

  /** None of the three values of a complete review renders with a newline. */
  predicate SingleLineFields(r: Value)
  {
    && Complete(r)
    && '\n' !in ToStr(Field(r, "text"))
    && '\n' !in ToStr(Field(r, "sentiment"))
    && '\n' !in ToStr(Field(r, "tags"))
  }

  /**
   * `f"Review: {r["text"]}\nSentiment: {r["sentiment"]}\nTag: {r["tags"]}"`:
   * the three subscripts in that order, each value rendered with `str()`.
   */
  function ReviewBlock(r: Value): (b: Outcome<string>)
    ensures b.Returned? <==> Complete(r)
    ensures b.Raised? ==> b.exc.bases == {KeyError} || b.exc.bases == {TypeError}
  {
    var text :- Subscript(r, "text");
    var sentiment :- Subscript(r, "sentiment");
    var tags :- Subscript(r, "tags");
    Returned(BlockLines(ToStr(text), ToStr(sentiment), ToStr(tags)))
  }

  /** `"\n".join([... for r in request])`. */
  function FormatReviews(request: Value): (f: Outcome<string>)
    ensures f.Raised? ==> f.exc.bases == {KeyError} || f.exc.bases == {TypeError}
    ensures request.PyList? ==> (f.Returned? <==> forall i :: 0 <= i < |request.items| ==> Complete(request.items[i]))
  {
    var reviews :- Iterate(request);
    var blocks :- MapAll(reviews, ReviewBlock);
    Returned(Join("\n", blocks))
  }

  /**
   * `Cummulative_analysis_Generator(request, chat_prompt, review_classification_json)`:
   * the block goes to `chain.invoke({"reviews": ...})`; only `AttributeError`
   * is caught, and `review_classification_json` is never read.
   */
  function CumulativeAnalysis<L>(self: SegmentAnalysis<L>, request: Value, reviewClassificationJson: Value,
                                 pipeline: (L, Value) -> Outcome<Value>): (r: Outcome<Value>)
    ensures FormatReviews(request).Raised? ==> r == FormatReviews(request).PropagateFailure()
    ensures FormatReviews(request).Returned? ==>
      r == CatchAttributeError(pipeline(self.llm, StrDict("reviews", FormatReviews(request).value)))
  {
    FormatErrorsAreNotAttributeErrors(request);
    CatchAttributeError(
      var formatted :- FormatReviews(request);
      pipeline(self.llm, StrDict("reviews", formatted)))
  }

  /** Formatting raises only `KeyError` and `TypeError`, which the `except AttributeError` lets through. */
  lemma FormatErrorsAreNotAttributeErrors(request: Value)
    ensures FormatReviews(request).Raised? ==> !IsInstance(FormatReviews(request).exc, AttributeError)
  {
    var f := FormatReviews(request);
    if f.Raised? {
      KeyOrTypeErrorIsNoAttributeError(f.exc);
    }
  }

  /** Neither `KeyError` nor `TypeError` derives from `AttributeError`. */
  lemma KeyOrTypeErrorIsNoAttributeError(e: Exc)
    requires e.bases == {KeyError} || e.bases == {TypeError}
    ensures !IsInstance(e, AttributeError)
  {
    if e.bases == {KeyError} {
      SingleBaseInstance(e, KeyError, AttributeError);
    } else {
      SingleBaseInstance(e, TypeError, AttributeError);
    }
  }

  // ----- properties of the serialiser -----

  /** A block reads the three keys and nothing else. */
  lemma BlockReadsThreeKeys(r1: Value, r2: Value)
    requires r1.PyDict? && r2.PyDict?
    requires Lookup(r1.entries, "text") == Lookup(r2.entries, "text")
    requires Lookup(r1.entries, "sentiment") == Lookup(r2.entries, "sentiment")
    requires Lookup(r1.entries, "tags") == Lookup(r2.entries, "tags")
    ensures ReviewBlock(r1) == ReviewBlock(r2)
  {
  }

  /** The block of a complete review, field by field. */
  lemma BlockOfComplete(r: Value)
    requires Complete(r)
    ensures ReviewBlock(r) == Returned(BlockLines(ToStr(Field(r, "text")), ToStr(Field(r, "sentiment")), ToStr(Field(r, "tags"))))
  {
  }

  /** The blocks of a list of reviews, joined by one newline, in list order. */
  lemma FormatInOrder(rs: seq<Value>)
    requires forall i :: 0 <= i < |rs| ==> Complete(rs[i])
    ensures MapAll(rs, ReviewBlock).Returned?
    ensures FormatReviews(PyList(rs)) == Returned(Join("\n", MapAll(rs, ReviewBlock).value))
    ensures forall i :: 0 <= i < |rs| ==> MapAll(rs, ReviewBlock).value[i] == ReviewBlock(rs[i]).value
  {
    assert forall i :: 0 <= i < |rs| ==> ReviewBlock(rs[i]).Returned?;
    var m := MapAll(rs, ReviewBlock);
    assert Iterate(PyList(rs)) == Returned(rs);
    assert FormatReviews(PyList(rs)) == Returned(Join("\n", m.value));
  }

  /** An empty list gives the empty string. */
  lemma EmptyBatch()
    ensures FormatReviews(PyList([])) == Returned("")
  {
  }

  /** Appending a review appends a newline and its block: no separator leads or trails. */
  lemma FormatSnoc(rs: seq<Value>, r: Value)
    requires rs != [] && Complete(r) && forall i :: 0 <= i < |rs| ==> Complete(rs[i])
    ensures FormatReviews(PyList(rs + [r])).Returned?
    ensures FormatReviews(PyList(rs + [r])).value == FormatReviews(PyList(rs)).value + "\n" + ReviewBlock(r).value
  {
    FormatInOrder(rs);
    var blocks := MapAll(rs, ReviewBlock).value;
    var b := ReviewBlock(r).value;
    MapAllSnoc(rs, r, ReviewBlock);
    assert FormatReviews(PyList(rs + [r])) == Returned(Join("\n", blocks + [b]));
    JoinSnoc("\n", blocks, b);
  }

  /** A string that opens with a newline and has no other has one newline. */
  lemma OneLeadingNewline(x: string)
    requires x != [] && x[0] == '\n' && '\n' !in x[1..]
    ensures Count('\n', x) == 1
  {
  }

  /** The three lines of a block are separated by exactly two newlines. */
  lemma BlockLinesNewlines(text: string, sentiment: string, tags: string)
    requires '\n' !in text && '\n' !in sentiment && '\n' !in tags
    ensures Count('\n', BlockLines(text, sentiment, tags)) == 2
  {
    var p1 := "Review: " + text;
    var p2 := "\nSentiment: " + sentiment;
    var p3 := "\nTag: " + tags;
    assert BlockLines(text, sentiment, tags) == p1 + p2 + p3;
    assert '\n' !in p1;
    assert p2[1..] == "Sentiment: " + sentiment;
    OneLeadingNewline(p2);
    assert p3[1..] == "Tag: " + tags;
    OneLeadingNewline(p3);
    CountConcat('\n', p1, p2);
    CountConcat('\n', p1 + p2, p3);
  }

  /**
   * A non-empty batch whose values render without newlines has exactly
   * `3 * n - 1` newlines, so `3 * n` lines.
   */
  lemma BatchLines(rs: seq<Value>)
    requires rs != [] && forall i :: 0 <= i < |rs| ==> SingleLineFields(rs[i])
    ensures FormatReviews(PyList(rs)).Returned?
    ensures Count('\n', FormatReviews(PyList(rs)).value) == 3 * |rs| - 1
  {
    FormatInOrder(rs);
    var blocks := MapAll(rs, ReviewBlock).value;
    CountJoin('\n', "\n", blocks);
    BlocksNewlines(rs, blocks);
    assert Count('\n', "\n") == 1;
  }

  /** Two newlines per block. */
  lemma {:induction false} BlocksNewlines(rs: seq<Value>, blocks: seq<string>)
    requires forall i :: 0 <= i < |rs| ==> SingleLineFields(rs[i])
    requires |blocks| == |rs| && forall i :: 0 <= i < |rs| ==> ReviewBlock(rs[i]) == Returned(blocks[i])
    ensures CountAll('\n', blocks) == 2 * |rs|
    decreases |rs|
  {
    if rs != [] {
      var r := rs[0];
      BlockOfComplete(r);
      BlockLinesNewlines(ToStr(Field(r, "text")), ToStr(Field(r, "sentiment")), ToStr(Field(r, "tags")));
      BlocksNewlines(rs[1..], blocks[1..]);
    }
  }

  /** `review_classification_json` has no influence on the answer. */
  lemma IgnoresClassification<L>(self: SegmentAnalysis<L>, request: Value, j1: Value, j2: Value,
                                 pipeline: (L, Value) -> Outcome<Value>)
    ensures CumulativeAnalysis(self, request, j1, pipeline) == CumulativeAnalysis(self, request, j2, pipeline)
  {
  }

  /**
   * A review without `"text"`, after complete ones, raises the `KeyError`
   * out of the method: the model is not called and no error dict is returned.
   */
  lemma MissingTextEscapes<L>(self: SegmentAnalysis<L>, rs: seq<Value>, k: nat, j: Value,
                              pipeline: (L, Value) -> Outcome<Value>)
    requires k < |rs| && forall i :: 0 <= i < k ==> Complete(rs[i])
    requires rs[k].PyDict? && !HasKey(rs[k], "text")
    ensures CumulativeAnalysis(self, PyList(rs), j, pipeline) == Raised(Builtin(KeyError, StrRepr("text")))
  {
    var m := MapAll(rs, ReviewBlock);
    assert ReviewBlock(rs[k]).Raised?;
    var i :| 0 <= i < |rs| && ReviewBlock(rs[i]) == Raised(m.exc) && forall j :: 0 <= j < i ==> ReviewBlock(rs[j]).Returned?;
    assert i == k;
  }

  /** The `tags` of the sixth sample review, a list of two components. */
  const SampleTags: Value := PyList([PyStr("UI/UX"), PyStr("Mobile")])

  /** The sixth sample review. */
  const SampleReview: Value := PyDict([
    Entry("text", PyStr("UI-UX is good and mobile app is very slow")),
    Entry("sentiment", PyStr("Neutral")),
    Entry("tags", SampleTags)])

  /** The first sample tag is written between single quotes. */
  lemma QuotedUiUx()
    ensures StrRepr("UI/UX") == "'UI/UX'"
  {
    PlainRepr("UI/UX");
  }

  /** So is the second. */
  lemma QuotedMobile()
    ensures StrRepr("Mobile") == "'Mobile'"
  {
    PlainRepr("Mobile");
  }

  /** The reprs of the two sample tags. */
  lemma SampleTagReprs()
    ensures ReprAll(SampleTags, SampleTags.items) == ["'UI/UX'", "'Mobile'"]
  {
    QuotedUiUx();
    QuotedMobile();
    assert SampleTags.items[1..] == [PyStr("Mobile")];
    assert ReprAll(SampleTags, [PyStr("Mobile")]) == ["'Mobile'"] by {
      assert [PyStr("Mobile")][1..] == [];
    }
  }

  /** The list display of the two reprs, character by character. */
  lemma SampleTagsLiteral()
    ensures "[" + ("'UI/UX'" + ", " + "'Mobile'") + "]" == "['UI/UX', 'Mobile']"
  {
    var written := "[" + ("'UI/UX'" + ", " + "'Mobile'") + "]";
    assert |written| == |"['UI/UX', 'Mobile']"|;
    assert forall i :: 0 <= i < |written| ==> written[i] == "['UI/UX', 'Mobile']"[i];
  }

  /** `str(["UI/UX", "Mobile"])` is `['UI/UX', 'Mobile']`. */
  lemma SampleTagsStr()
    ensures ToStr(SampleTags) == "['UI/UX', 'Mobile']"
  {
    var parts := ReprAll(SampleTags, SampleTags.items);
    SampleTagReprs();
    assert parts[1..] == ["'Mobile'"];
    assert Join(", ", parts) == "'UI/UX'" + ", " + "'Mobile'";
    SampleTagsLiteral();
  }

  /** A list-valued `tags`, as in the sixth sample review, is written as its list repr on the Tag line. */
  lemma ListTagsExample()
    ensures ReviewBlock(SampleReview)
         == Returned(BlockLines("UI-UX is good and mobile app is very slow", "Neutral", "['UI/UX', 'Mobile']"))
  {
    assert Lookup(SampleReview.entries, "text") == Some(PyStr("UI-UX is good and mobile app is very slow"));
    assert Lookup(SampleReview.entries, "sentiment") == Some(PyStr("Neutral")) by {
      assert SampleReview.entries[1..][0].key == "sentiment";
    }
    assert Lookup(SampleReview.entries, "tags") == Some(SampleTags) by {
      assert SampleReview.entries[1..][1..][0].key == "tags";
    }
    BlockOfComplete(SampleReview);
    SampleTagsStr();
  }
}
