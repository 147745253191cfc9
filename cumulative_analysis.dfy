/**
 * The two ways the cumulative-analysis service runs the summary chain over
 * chunks of reviews: the parallel method, which starts one task per chunk,
 * collects each result's `"summary"` and feeds the joined summaries to a
 * second chain; and the sequential method, which dispatches on the type of
 * its input.
 */
module CumulativeAnalysis {
  import opened Exceptions
  import opened Text
  import opened Values
  import opened RequestGuard

  // ----- the tasks -----

  /** `enumerate(xs, start)`: each element paired with its number. */
  function Enumerate(xs: seq<Value>, start: nat): (r: seq<(nat, Value)>)
    ensures |r| == |xs| && forall i :: 0 <= i < |xs| ==> r[i] == (start + i, xs[i])
  {
    seq(|xs|, i requires 0 <= i < |xs| => (start + i, xs[i]))
  }

  /** `f"chunk_{i+1}"` for the number `i` that `enumerate(..., start=1)` gives. */
  function TaskKey(i: nat): string
  {
    "chunk_" + NatToString(i + 1)
  }

  /** The key of the task for the chunk at (zero-based) position `j`. */
  function ChunkKey(j: nat): (k: string)
    ensures k == TaskKey(j + 1)
  {
    "chunk_" + NatToString(j + 2)
  }

  /**
   * What the task lambdas read. As written (`LateBound`), each lambda reads
   * the comprehension variable `chunk` when the runner calls it, after the
   * comprehension has finished, so every task sees the last chunk. `PerChunk`
   * is the evidently intended binding, each task seeing its own chunk.
   */
  datatype Binding = LateBound | PerChunk

  /** The input `{"reviews": chunk}` of the task at position `j`. */
  function TaskInput(chunks: seq<Value>, j: nat, binding: Binding): (v: Value)
    requires j < |chunks|
    ensures binding == PerChunk ==> v == PyDict([Entry("reviews", chunks[j])])
    ensures binding == LateBound ==> v == PyDict([Entry("reviews", chunks[|chunks| - 1])])
  {
    var chunk := if binding == LateBound then chunks[|chunks| - 1] else chunks[j];
    PyDict([Entry("reviews", chunk)])
  }

  /**
   * The task for the enumerated pair `p`: the chain on `{"reviews": chunk}`,
   * its answer stored under `f"chunk_{i+1}"` for the number `i` of `p`.
   */
  function RunTask<L>(llm: L, chunks: seq<Value>, binding: Binding, pipeline: (L, Value) -> Outcome<Value>,
                      p: (nat, Value)): Outcome<Entry>
    requires chunks != []
  {
    var chunk := if binding == LateBound then chunks[|chunks| - 1] else p.1;
    match pipeline(llm, PyDict([Entry("reviews", chunk)]))
    case Raised(e) => Raised(e)
    case Returned(v) => Returned(Entry(TaskKey(p.0), v))
  }

  /** The task at position `j` sends `TaskInput(chunks, j, binding)` and answers under `ChunkKey(j)`. */
  lemma TaskAt<L>(llm: L, chunks: seq<Value>, binding: Binding, pipeline: (L, Value) -> Outcome<Value>, j: nat)
    requires j < |chunks|
    ensures var out := pipeline(llm, TaskInput(chunks, j, binding));
      RunTask(llm, chunks, binding, pipeline, Enumerate(chunks, 1)[j])
        == if out.Returned? then Returned(Entry(ChunkKey(j), out.value)) else Raised(out.exc)
  {
  }

  /**
   * `RunnableParallel({...}).invoke({})`, run as a plain map over the tasks
   * in key order: the entries of the result dict, or the first exception.
   */
  function RunTasks<L>(llm: L, chunks: seq<Value>, binding: Binding, pipeline: (L, Value) -> Outcome<Value>)
    : (r: Outcome<seq<Entry>>)
    requires chunks != []
    ensures r.Returned? <==> forall j :: 0 <= j < |chunks| ==> pipeline(llm, TaskInput(chunks, j, binding)).Returned?
    ensures r.Returned? ==> |r.value| == |chunks| && forall j :: 0 <= j < |chunks| ==>
      r.value[j] == Entry(ChunkKey(j), pipeline(llm, TaskInput(chunks, j, binding)).value)
    ensures r.Raised? ==> exists j :: 0 <= j < |chunks| && pipeline(llm, TaskInput(chunks, j, binding)) == Raised(r.exc)
  {
    var task := (p: (nat, Value)) requires chunks != [] => RunTask(llm, chunks, binding, pipeline, p);
    RunReturnsIff(llm, chunks, binding, pipeline, task);
    RunValues(llm, chunks, binding, pipeline, task);
    RunRaises(llm, chunks, binding, pipeline, task);
    MapAll(Enumerate(chunks, 1), task)
  }

  /** `TaskAt` for every position, for a function that runs the tasks. */
  lemma TasksAt<L>(llm: L, chunks: seq<Value>, binding: Binding, pipeline: (L, Value) -> Outcome<Value>,
                   task: ((nat, Value)) -> Outcome<Entry>)
    requires chunks != [] && forall p :: task(p) == RunTask(llm, chunks, binding, pipeline, p)
    ensures forall j :: 0 <= j < |chunks| ==>
      var out := pipeline(llm, TaskInput(chunks, j, binding));
      task(Enumerate(chunks, 1)[j]) == if out.Returned? then Returned(Entry(ChunkKey(j), out.value)) else Raised(out.exc)
  {
    forall j | 0 <= j < |chunks| {
      TaskAt(llm, chunks, binding, pipeline, j);
    }
  }

  /** The run returns exactly when every task's chain call returns. */
  lemma RunReturnsIff<L>(llm: L, chunks: seq<Value>, binding: Binding, pipeline: (L, Value) -> Outcome<Value>,
                         task: ((nat, Value)) -> Outcome<Entry>)
    requires chunks != [] && forall p :: task(p) == RunTask(llm, chunks, binding, pipeline, p)
    ensures MapAll(Enumerate(chunks, 1), task).Returned?
        <==> forall j :: 0 <= j < |chunks| ==> pipeline(llm, TaskInput(chunks, j, binding)).Returned?
  {
    TasksAt(llm, chunks, binding, pipeline, task);
  }

  /** A returned run holds each task's answer under its key, in chunk order. */
  lemma RunValues<L>(llm: L, chunks: seq<Value>, binding: Binding, pipeline: (L, Value) -> Outcome<Value>,
                     task: ((nat, Value)) -> Outcome<Entry>)
    requires chunks != [] && forall p :: task(p) == RunTask(llm, chunks, binding, pipeline, p)
    ensures var r := MapAll(Enumerate(chunks, 1), task);
      r.Returned? ==> |r.value| == |chunks| && forall j :: 0 <= j < |chunks| ==>
        pipeline(llm, TaskInput(chunks, j, binding)).Returned?
        && r.value[j] == Entry(ChunkKey(j), pipeline(llm, TaskInput(chunks, j, binding)).value)
  {
    TasksAt(llm, chunks, binding, pipeline, task);
  }

  /** A failed run raises the exception of one of the chain calls. */
  lemma RunRaises<L>(llm: L, chunks: seq<Value>, binding: Binding, pipeline: (L, Value) -> Outcome<Value>,
                     task: ((nat, Value)) -> Outcome<Entry>)
    requires chunks != [] && forall p :: task(p) == RunTask(llm, chunks, binding, pipeline, p)
    ensures var r := MapAll(Enumerate(chunks, 1), task);
      r.Raised? ==> exists j :: 0 <= j < |chunks| && pipeline(llm, TaskInput(chunks, j, binding)) == Raised(r.exc)
  {
    var r := MapAll(Enumerate(chunks, 1), task);
    if r.Raised? {
      TasksAt(llm, chunks, binding, pipeline, task);
      var j :| 0 <= j < |chunks| && task(Enumerate(chunks, 1)[j]) == Raised(r.exc);
      assert pipeline(llm, TaskInput(chunks, j, binding)) == Raised(r.exc);
    }
  }

  // ----- collecting the summaries -----

  /** `res["summary"]`. */
  function SummaryOf(res: Value): (r: Outcome<Value>)
    ensures r == Subscript(res, "summary")
  {
    Subscript(res, "summary")
  }

  /** `results.values()`. */
  function ValuesOf(entries: seq<Entry>): (vs: seq<Value>)
    ensures |vs| == |entries| && forall i :: 0 <= i < |entries| ==> vs[i] == entries[i].val
  {
    seq(|entries|, i requires 0 <= i < |entries| => entries[i].val)
  }

  /** The texts of a list of `str` values. */
  function Strs(items: seq<Value>): (ss: seq<string>)
    requires forall i :: 0 <= i < |items| ==> items[i].PyStr?
    ensures |ss| == |items| && forall i :: 0 <= i < |items| ==> ss[i] == items[i].s
  {
    seq(|items|, i requires 0 <= i < |items| => items[i].s)
  }

  /** The first position of `items`, from `from` on, that is not a `str`. */
  function FirstNonStr(items: seq<Value>, from: nat): (r: Option<nat>)
    requires from <= |items|
    ensures r.Some? ==> from <= r.value < |items| && !items[r.value].PyStr?
    ensures r.Some? ==> forall i :: from <= i < r.value ==> items[i].PyStr?
    ensures r.None? ==> forall i :: from <= i < |items| ==> items[i].PyStr?
    decreases |items| - from
  {
    if from == |items| then None
    else if !items[from].PyStr? then Some(from)
    else FirstNonStr(items, from + 1)
  }

  /** `"\n".join(items)`: a `TypeError` naming the first item that is not a `str`. */
  function JoinLines(items: seq<Value>): (r: Outcome<string>)
    ensures r.Returned? <==> forall i :: 0 <= i < |items| ==> items[i].PyStr?
    ensures r.Returned? ==> r.value == Join("\n", Strs(items))
    ensures r.Raised? ==> r.exc.bases == {TypeError}
  {
    match FirstNonStr(items, 0)
    case None => Returned(Join("\n", Strs(items)))
    case Some(i) =>
      Raised(Builtin(TypeError, "sequence item " + NatToString(i) + ": expected str instance, "
                                + TypeName(items[i]) + " found"))
  }

  // ----- the parallel method -----

  /** What the method returns for empty `chunks`: `({}, {"summary": "", "key_insights": []})`. */
  const EmptyAnswer: Value :=
    PyTuple([PyDict([]), PyDict([Entry("summary", PyStr("")), Entry("key_insights", PyList([]))])])

  /**
   * What follows the runner: collect the summaries, join them, call the
   * final chain on `{"summaries": ...}` and pair the results with its answer.
   */
  function Reduce<L>(llm: L, results: seq<Entry>, finalPipeline: (L, Value) -> Outcome<Value>): (r: Outcome<Value>)
    ensures r.Returned? ==> r.value.PyTuple? && |r.value.elems| == 2 && r.value.elems[0] == PyDict(results)
  {
    var summaries :- MapAll(ValuesOf(results), SummaryOf);
    var joined :- JoinLines(summaries);
    var finalSummary :- finalPipeline(llm, StrDict("summaries", joined));
    Returned(PyTuple([PyDict(results), finalSummary]))
  }

  /**
   * The specification of `Cummulative_analysis_Generator_parallel`: falsy
   * `chunks` give the empty answer; a truthy non-list falls through the
   * `isinstance` test and gives `None`; a list is run through the tasks and
   * reduced. Only `AttributeError` is caught.
   */
  function ParallelSpec<L>(self: SegmentAnalysis<L>, chunks: Value, binding: Binding,
                           pipeline: (L, Value) -> Outcome<Value>,
                           finalPipeline: (L, Value) -> Outcome<Value>): Outcome<Value>
  {
    if !Truthy(chunks) then Returned(EmptyAnswer)
    else if !chunks.PyList? then Returned(PyNone)
    else
      CatchAttributeError(
        var results :- RunTasks(self.llm, chunks.items, binding, pipeline);
        Reduce(self.llm, results, finalPipeline))
  }

  /** The loop `for res in results.values(): Cummulative_summary.append(res["summary"])`. */
  method CollectSummaries(values: seq<Value>) returns (r: Outcome<seq<Value>>)
    ensures r == MapAll(values, SummaryOf)
  {
    r := MapEach(values, SummaryOf);
  }

  /** `Cummulative_analysis_Generator_parallel(chunks, chat_prompt, Cummaltive_chain_prompt)`. */
  method GenerateParallel<L>(self: SegmentAnalysis<L>, chunks: Value, binding: Binding,
                             pipeline: (L, Value) -> Outcome<Value>,
                             finalPipeline: (L, Value) -> Outcome<Value>) returns (r: Outcome<Value>)
    ensures r == ParallelSpec(self, chunks, binding, pipeline, finalPipeline)
  {
    if !Truthy(chunks) {
      return Returned(EmptyAnswer);
    }
    if !chunks.PyList? {
      return Returned(PyNone);
    }
    var results := RunTasks(self.llm, chunks.items, binding, pipeline);
    if results.Raised? {
      return CatchAttributeError(Raised(results.exc));
    }
    var summaries := CollectSummaries(ValuesOf(results.value));
    if summaries.Raised? {
      return CatchAttributeError(Raised(summaries.exc));
    }
    var joined := JoinLines(summaries.value);
    if joined.Raised? {
      return CatchAttributeError(Raised(joined.exc));
    }
    var finalSummary := finalPipeline(self.llm, StrDict("summaries", joined.value));
    if finalSummary.Raised? {
      return CatchAttributeError(Raised(finalSummary.exc));
    }
    return CatchAttributeError(Returned(PyTuple([PyDict(results.value), finalSummary.value])));
  }

  // ----- properties of the parallel method -----

  /** Falsy `chunks` return the empty answer without calling either chain. */
  lemma EmptyChunksCallNoChain<L>(self: SegmentAnalysis<L>, chunks: Value, binding: Binding,
                                  p1: (L, Value) -> Outcome<Value>, p2: (L, Value) -> Outcome<Value>,
                                  f1: (L, Value) -> Outcome<Value>, f2: (L, Value) -> Outcome<Value>)
    requires !Truthy(chunks)
    ensures ParallelSpec(self, chunks, binding, p1, f1) == ParallelSpec(self, chunks, binding, p2, f2) == Returned(EmptyAnswer)
  {
  }

  /** A truthy value that is not a list gives `None`, again without calling either chain. */
  lemma NonListGivesNone<L>(self: SegmentAnalysis<L>, chunks: Value, binding: Binding,
                            pipeline: (L, Value) -> Outcome<Value>, finalPipeline: (L, Value) -> Outcome<Value>)
    requires Truthy(chunks) && !chunks.PyList?
    ensures ParallelSpec(self, chunks, binding, pipeline, finalPipeline) == Returned(PyNone)
  {
  }

  /** Different positions get different keys, so the runner's dict keeps one entry per chunk. */
  lemma ChunkKeysDistinct(i: nat, j: nat)
    requires i != j
    ensures ChunkKey(i) != ChunkKey(j)
  {
    if ChunkKey(i) == ChunkKey(j) {
      assert ChunkKey(i)[6..] == NatToString(i + 2);
      assert ChunkKey(j)[6..] == NatToString(j + 2);
      NatToStringInjective(i + 2, j + 2);
    }
  }

  /** The keys run from `chunk_2` to `chunk_{n+1}`. */
  lemma KeyRange(n: nat)
    requires n >= 1
    ensures ChunkKey(0) == "chunk_2"
    ensures ChunkKey(n - 1) == "chunk_" + NatToString(n + 1)
  {
  }

  /** The results of a successful run: one entry per chunk, keyed in order and pairwise distinct. */
  lemma RunKeys<L>(llm: L, chunks: seq<Value>, binding: Binding, pipeline: (L, Value) -> Outcome<Value>)
    requires chunks != [] && RunTasks(llm, chunks, binding, pipeline).Returned?
    ensures var es := RunTasks(llm, chunks, binding, pipeline).value;
      |es| == |chunks| && forall i, j :: 0 <= i < j < |es| ==> es[i].key != es[j].key
  {
    var es := RunTasks(llm, chunks, binding, pipeline).value;
    forall i, j | 0 <= i < j < |es| ensures es[i].key != es[j].key {
      ChunkKeysDistinct(i, j);
    }
  }

  /**
   * As written, every task is sent the last chunk: task `j` stores, under its
   * own key, the chain's answer to an input that holds `chunks[|chunks| - 1]`.
   */
  lemma LateBoundTasksSeeLastChunk<L>(llm: L, chunks: seq<Value>, pipeline: (L, Value) -> Outcome<Value>)
    requires chunks != [] && RunTasks(llm, chunks, LateBound, pipeline).Returned?
    ensures forall j :: 0 <= j < |chunks| ==>
      TaskInput(chunks, j, LateBound) == PyDict([Entry("reviews", chunks[|chunks| - 1])])
    ensures forall j :: 0 <= j < |chunks| ==>
      RunTasks(llm, chunks, LateBound, pipeline).value[j]
        == Entry(ChunkKey(j), pipeline(llm, TaskInput(chunks, j, LateBound)).value)
  {
  }

  /** With the intended binding, each task receives its own chunk. */
  lemma PerChunkTasksSeeOwnChunk<L>(llm: L, chunks: seq<Value>, pipeline: (L, Value) -> Outcome<Value>)
    requires chunks != [] && RunTasks(llm, chunks, PerChunk, pipeline).Returned?
    ensures forall j :: 0 <= j < |chunks| ==>
      RunTasks(llm, chunks, PerChunk, pipeline).value[j]
        == Entry(ChunkKey(j), pipeline(llm, PyDict([Entry("reviews", chunks[j])])).value)
  {
  }

  /** A pipeline that answers with its own input, which shows what each task was sent. */
  function Echo<L>(llm: L, input: Value): (r: Outcome<Value>)
    ensures r == Returned(input)
  {
    Returned(input)
  }

  /**
   * Two chunks: as written, the task `chunk_2` is sent the second chunk;
   * with the intended binding it is sent the first.
   */
  lemma LateBindingCounterexample<L>(llm: L)
    ensures var chunks := [StrDict("text", "first"), StrDict("text", "second")];
      && RunTasks(llm, chunks, LateBound, Echo).value[0] == Entry("chunk_2", PyDict([Entry("reviews", chunks[1])]))
      && RunTasks(llm, chunks, PerChunk, Echo).value[0] == Entry("chunk_2", PyDict([Entry("reviews", chunks[0])]))
      && chunks[0] != chunks[1]
  {
    var chunks := [StrDict("text", "first"), StrDict("text", "second")];
    assert ChunkKey(0) == "chunk_2";
    assert chunks[0].entries[0].val != chunks[1].entries[0].val by {
      assert "first"[0] != "second"[0];
    }
  }

  /** The summary strings in result order, if every result has a `str` summary. */
  predicate SummariesAreStrs(results: seq<Entry>)
  {
    forall i :: 0 <= i < |results| ==> HasStrSummary(results[i].val)
  }

  predicate HasStrSummary(res: Value)
  {
    SummaryOf(res).Returned? && SummaryOf(res).value.PyStr?
  }

  /**
   * When every result carries a `str` summary, the final chain is sent those
   * summaries in result order, joined by single newlines, and its answer is
   * paired with the results.
   */
  lemma SummariesJoinedInOrder<L>(llm: L, results: seq<Entry>, finalPipeline: (L, Value) -> Outcome<Value>)
    requires SummariesAreStrs(results)
    ensures var texts := seq(|results|, i requires 0 <= i < |results| => SummaryOf(results[i].val).value.s);
      var out := finalPipeline(llm, StrDict("summaries", Join("\n", texts)));
      Reduce(llm, results, finalPipeline) == if out.Returned? then Returned(PyTuple([PyDict(results), out.value])) else Raised(out.exc)
  {
    var m := MapAll(ValuesOf(results), SummaryOf);
    assert m.Returned?;
    var texts := seq(|results|, i requires 0 <= i < |results| => SummaryOf(results[i].val).value.s);
    assert Strs(m.value) == texts;
  }

  /** On a dict, `v[key]` can only fail with `KeyError(repr(key))`. */
  lemma DictSubscriptRaisesKeyError(v: Value, key: string)
    requires v.PyDict? && Subscript(v, key).Raised?
    ensures Subscript(v, key).exc == Builtin(KeyError, StrRepr(key))
  {
  }

  /** A result without `"summary"` raises `KeyError('summary')`, and the final chain is not called. */
  lemma MissingSummaryRaises<L>(llm: L, results: seq<Entry>, finalPipeline: (L, Value) -> Outcome<Value>)
    requires forall i :: 0 <= i < |results| ==> results[i].val.PyDict?
    requires exists i :: 0 <= i < |results| && Lookup(results[i].val.entries, "summary").None?
    ensures Reduce(llm, results, finalPipeline) == Raised(Builtin(KeyError, StrRepr("summary")))
  {
    var values := ValuesOf(results);
    var m := MapAll(values, SummaryOf);
    FirstMissingKey(values, "summary", SummaryOf);
  }

  /**
   * Subscripting a list of dicts, some of which lack `key`, raises
   * `KeyError(repr(key))`.
   */
  lemma FirstMissingKey(values: seq<Value>, key: string, f: Value -> Outcome<Value>)
    requires forall v :: f(v) == Subscript(v, key)
    requires forall i :: 0 <= i < |values| ==> values[i].PyDict?
    requires exists i :: 0 <= i < |values| && Lookup(values[i].entries, key).None?
    ensures MapAll(values, f) == Raised(Builtin(KeyError, StrRepr(key)))
  {
    var k :| 0 <= k < |values| && Lookup(values[k].entries, key).None?;
    assert f(values[k]).Raised?;
    var m := MapAll(values, f);
    var i :| 0 <= i < |values| && f(values[i]) == Raised(m.exc);
    DictSubscriptRaisesKeyError(values[i], key);
  }

  /** `KeyError` does not derive from `AttributeError`. */
  lemma KeyErrorIsNoAttributeError(message: string)
    ensures !IsInstance(Builtin(KeyError, message), AttributeError)
  {
    BuiltinInstance(KeyError, message, AttributeError);
  }

  /** That `KeyError` is not an `AttributeError`, so it leaves the method uncaught. */
  lemma MissingSummaryEscapes<L>(self: SegmentAnalysis<L>, chunks: seq<Value>, binding: Binding,
                                 pipeline: (L, Value) -> Outcome<Value>, finalPipeline: (L, Value) -> Outcome<Value>)
    requires chunks != [] && RunTasks(self.llm, chunks, binding, pipeline).Returned?
    requires var results := RunTasks(self.llm, chunks, binding, pipeline).value;
      && (forall i :: 0 <= i < |results| ==> results[i].val.PyDict?)
      && (exists i :: 0 <= i < |results| && Lookup(results[i].val.entries, "summary").None?)
    ensures ParallelSpec(self, PyList(chunks), binding, pipeline, finalPipeline) == Raised(Builtin(KeyError, StrRepr("summary")))
  {
    var results := RunTasks(self.llm, chunks, binding, pipeline).value;
    var e := Builtin(KeyError, StrRepr("summary"));
    MissingSummaryRaises(self.llm, results, finalPipeline);
    KeyErrorIsNoAttributeError(StrRepr("summary"));
    assert CatchAttributeError(Raised(e)) == Raised(e);
    assert Truthy(PyList(chunks));
  }

  /** An `AttributeError` from a task gives a single error dict, not a pair. */
  lemma AttributeErrorGivesSingleDict<L>(self: SegmentAnalysis<L>, chunks: seq<Value>, binding: Binding,
                                         pipeline: (L, Value) -> Outcome<Value>, finalPipeline: (L, Value) -> Outcome<Value>)
    requires chunks != [] && RunTasks(self.llm, chunks, binding, pipeline).Raised?
    requires IsInstance(RunTasks(self.llm, chunks, binding, pipeline).exc, AttributeError)
    ensures ParallelSpec(self, PyList(chunks), binding, pipeline, finalPipeline)
         == Returned(ErrorDict("Invalid request: missing 'text'"))
  {
  }

  // ----- the sequential method -----

  /**
   * `Cummulative_analysis_Generator_sequential(request, chat_prompt)`: a `str`
   * is one `invoke`, a list is one `batch` over its elements, anything else
   * falls through both tests and gives `None`. Only `AttributeError` is caught.
   */
  function GenerateSequential<L>(self: SegmentAnalysis<L>, request: Value, pipeline: (L, Value) -> Outcome<Value>)
    : (r: Outcome<Value>)
    ensures request.PyStr? ==> r == CatchAttributeError(pipeline(self.llm, request))
    ensures !request.PyStr? && !request.PyList? ==> r == Returned(PyNone)
    ensures request.PyList? && (forall i :: 0 <= i < |request.items| ==> pipeline(self.llm, request.items[i]).Returned?) ==>
      r.Returned? && r.value.PyList? && |r.value.items| == |request.items|
      && forall i :: 0 <= i < |request.items| ==> r.value.items[i] == pipeline(self.llm, request.items[i]).value
  {
    CatchAttributeError(
      if request.PyStr? then pipeline(self.llm, request)
      else if request.PyList? then
        var outs :- MapAll(request.items, (v: Value) => pipeline(self.llm, v));
        Returned(PyList(outs))
      else Returned(PyNone))
  }

  /** A batch fails with the first element's exception, caught only if it is an `AttributeError`. */
  lemma SequentialBatchFailure<L>(self: SegmentAnalysis<L>, items: seq<Value>, k: nat, pipeline: (L, Value) -> Outcome<Value>)
    requires k < |items| && pipeline(self.llm, items[k]).Raised?
    requires forall i :: 0 <= i < k ==> pipeline(self.llm, items[i]).Returned?
    ensures GenerateSequential(self, PyList(items), pipeline) == CatchAttributeError(Raised(pipeline(self.llm, items[k]).exc))
  {
    var f := (v: Value) => pipeline(self.llm, v);
    assert MapAll(items[..k], f).Returned? by {
      forall i | 0 <= i < k ensures f(items[..k][i]).Returned? {
        assert items[..k][i] == items[i];
      }
    }
    MapAllFirstFailure(items, k, f);
  }

  /**
   * A batch with a failing element fails with some failing element's
   * exception, caught only if it is an `AttributeError`; this holds whatever
   * order the batch runs its stages in.
   */
  lemma SequentialBatchSomeFailure<L>(self: SegmentAnalysis<L>, items: seq<Value>, pipeline: (L, Value) -> Outcome<Value>)
    requires exists k :: 0 <= k < |items| && pipeline(self.llm, items[k]).Raised?
    ensures exists k :: (0 <= k < |items| && pipeline(self.llm, items[k]).Raised? &&
      GenerateSequential(self, PyList(items), pipeline) == CatchAttributeError(Raised(pipeline(self.llm, items[k]).exc)))
  {
    var f := (v: Value) => pipeline(self.llm, v);
    var m := MapAll(items, f);
    assert m.Raised?;
    var k :| 0 <= k < |items| && f(items[k]) == Raised(m.exc) && forall j :: 0 <= j < k ==> f(items[j]).Returned?;
    assert GenerateSequential(self, PyList(items), pipeline) == CatchAttributeError(Raised(pipeline(self.llm, items[k]).exc));
  }
}
