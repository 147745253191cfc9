# Review analysis services: a Dafny model

The repository runs app reviews through a language model in two ways:

- **Single-review classifier.** It sends one review to a prompt-model-parser chain and returns a summary, a sentiment and an app segment.
- **Cumulative analysis.** It turns batches of already-classified reviews into an overall summary. It reads a reviews file line by line, cuts the list into chunks, and applies the summary chain to each chunk. A second chain then merges the chunk summaries.

Around the two model calls sits deterministic Python logic. This project models that logic:

- the chunk planner;
- the dataset line reader;
- the batch serialiser;
- the request guard, with the table of `except` clauses that turns exceptions into error dicts;
- the model-initialisation failure rule;
- the parallel and sequential cumulative methods;
- the label enumerations.

The model calls are parameters of type `(L, Value) -> Outcome<Value>`, where `L` is the model handle. An answer either returns a Python value or raises an exception. Exceptions are values of the `Exc` datatype, with a set of built-in base classes and the class hierarchy of CPython.

Modules, in dependency order:

- `Exceptions`: exception classes, `isinstance`, and `Outcome` (value or exception) with `MapAll` for element-wise calls that stop at the first exception.
- `Text`: `str.join`, `strip`, `lower`, `in`, and the decimal rendering of integers.
- `Values`: Python values, truthiness, `v[key]`, `iter`, and `str()`/`repr()`.
- `Taxonomy`: the `Literal` label sets.
- `ChunkPlanner`: `chunk_list_dynamic`, plus a balanced planner for comparison.
- `DatasetReader`: the line-reading loop, kept as an imperative `for` loop.
- `RequestGuard`: the guard, the handler table, model initialisation, and the class method and endpoint of the single-review services.
- `ReviewFormatter`: `Cummulative_analysis_Generator` and its serialiser.
- `CumulativeAnalysis`: the parallel method, proved against a specification function, with its `for` loop as a method. It also holds the sequential method.

## Model

| member | source | states |
|---|---|---|
| Taxonomy.ParseRoundTrip | FInal_code/Cummulative_analysis_class_str.py:31-32 | every sentiment, component and segment label parses back from its own name, so the names are distinct |
| Taxonomy.Enumerations | FInal_code/Cummulative_analysis_class_str.py:31-32 | the lists hold 3 sentiments, 10 cumulative components and 6 single-review segments, each exactly once, and every label is in its list |
| Taxonomy.Widen | Segment_analysis_server_openAI_class_str.py:30 | each of the six single-review segments is a cumulative component with the same name |
| Taxonomy.NewComponents | FInal_code/Cummulative_analysis_class_str.py:31 | a component name is no single-review segment exactly when it is Checkout, Feature_request, Mobile or Search |
| Taxonomy.OtherIsNoLabel | FInal_code/Cummulative_analysis_class_str.py:82 | "Other", which the prompt allows and the sample reviews use, is in neither label set |
| ChunkPlanner.ChunkSize | FInal_code/cumm_analysis_cls_str.py:61 | `max(1, n // num_chunks)` with floor division is at least 1; when n ≥ num_chunks > 0 it is the quotient (size·k ≤ n < (size+1)·k); otherwise it is 1 |
| ChunkPlanner.ChunkListDynamic | FInal_code/cumm_analysis_cls_str.py:59-63 | it raises ZeroDivisionError exactly when num_chunks is 0 |
| ChunkPlanner.ChunksPartition | FInal_code/cumm_analysis_cls_str.py:62-63 | concatenating the chunks in order gives back the input |
| ChunkPlanner.ChunkShapes | FInal_code/cumm_analysis_cls_str.py:61-63 | there are ceil(n/size) chunks; each has 1..size elements and all but the last have exactly size |
| ChunkPlanner.EmptyInput | FInal_code/cumm_analysis_cls_str.py:62 | an empty list gives no chunks |
| ChunkPlanner.ExactWhenDivides | FInal_code/cumm_analysis_cls_str.py:60-63 | when num_chunks divides a non-empty length there are exactly num_chunks chunks |
| ChunkPlanner.SmallInputSingletons | FInal_code/cumm_analysis_cls_str.py:61-62 | with fewer items than num_chunks (or a negative num_chunks) each item is its own chunk |
| ChunkPlanner.SevenIntoTwo | FInal_code/cumm_analysis_cls_str.py:60-65 | seven items asked for two chunks come as [1,2,3], [4,5,6], [7]: three chunks |
| ChunkPlanner.AtMostTwiceRequested | FInal_code/cumm_analysis_cls_str.py:60-63 | the count never exceeds 2·num_chunks − 1 |
| ChunkPlanner.BalancedPartition | FInal_code/cumm_analysis_cls_str.py:60 | the docstring's planner: it partitions the input into min(n, num_chunks) non-empty chunks whose lengths differ by at most one |
| ChunkPlanner.BalancedShape | FInal_code/cumm_analysis_cls_str.py:60 | the docstring's planner: its chunks concatenate back to the input, and there are min(n, num_chunks) of them, none empty |
| ChunkPlanner.BalancedSizes | FInal_code/cumm_analysis_cls_str.py:60 | every chunk of the docstring's planner has between `n // num_chunks` and `ceil(n / num_chunks)` elements |
| ChunkPlanner.BalancedNearlyEqual | FInal_code/cumm_analysis_cls_str.py:60 | no two chunks of the docstring's planner differ in length by more than one |
| ChunkPlanner.SevenIntoTwoBalanced | FInal_code/cumm_analysis_cls_str.py:60 | the balanced planner splits seven items asked for two as [1,2,3,4], [5,6,7] |
| Text.Strip | FInal_code/cumm_analysis_cls_str.py:25 | the result is the input minus its longest whitespace prefix and suffix; it is empty exactly when the line is all whitespace |
| DatasetReader.SearchFrom | FInal_code/cumm_analysis_cls_str.py:30 | from a position, `re.search(r"(\{.*\})")` finds the leftmost start of a match and, the `.*` being greedy, the longest match there, or reports that no match exists |
| DatasetReader.BraceSpan | FInal_code/cumm_analysis_cls_str.py:30-32 | there is no group exactly when the line has no `{...}` run without a newline |
| DatasetReader.FirstOpenToLastClose | FInal_code/cumm_analysis_cls_str.py:30-32 | on a newline-free line the group runs from the first `{` to the last `}`; there is none when no `}` follows the first `{` |
| DatasetReader.ReplaceQuotes | FInal_code/cumm_analysis_cls_str.py:33 | length is kept, no `'` is left, and every `'` becomes `"` with everything else unchanged |
| DatasetReader.LineReview | FInal_code/cumm_analysis_cls_str.py:25-38 | one line contributes at most one review |
| DatasetReader.ReadReviews | FInal_code/cumm_analysis_cls_str.py:23-38 | the loop with its `continue` and skip branches builds `rev_list` equal to the lines' contributions in file order, never longer than the file |
| DatasetReader.ReviewsOfAppend | FInal_code/cumm_analysis_cls_str.py:24-36 | reading two parts of a file one after the other gives the two results concatenated, in order |
| DatasetReader.ReviewsOfSnoc | FInal_code/cumm_analysis_cls_str.py:24-38 | one more line at the end of the file adds its own contribution at the end |
| DatasetReader.ReviewsOfBound | FInal_code/cumm_analysis_cls_str.py:34-38 | the output is never longer than the line count |
| DatasetReader.BlankLineIgnored | FInal_code/cumm_analysis_cls_str.py:25-27 | inserting a blank or whitespace-only line anywhere leaves `rev_list` unchanged |
| DatasetReader.LineContribution | FInal_code/cumm_analysis_cls_str.py:25-36 | a line as the file iterator yields it, with at most its final newline, contributes `json.loads` of its first-`{`-to-last-`}` span with quotes replaced, or nothing |
| DatasetReader.FileContribution | FInal_code/cumm_analysis_cls_str.py:24-36 | over a whole file of such lines, `rev_list` is each stripped line's first-`{`-to-last-`}` reading, in file order |
| DatasetReader.StripKeepsNoNewline | FInal_code/cumm_analysis_cls_str.py:25 | `line.strip()` removes the newline that ends a line, so no newline is left for the regular expression to stop at |
| DatasetReader.StripDropsNewline | FInal_code/cumm_analysis_cls_str.py:25 | a newline-free body followed by `"\n"` is newline-free once stripped |
| DatasetReader.SpanContribution | FInal_code/cumm_analysis_cls_str.py:30-36 | on a stripped, newline-free line the matched span, decoded, is the decoded first-`{`-to-last-`}` slice, or nothing when there is no such slice or it does not decode |
| DatasetReader.BadLineSkipped | FInal_code/cumm_analysis_cls_str.py:34-38 | a line whose span does not decode is skipped, and the lines around it are kept in order |
| Values.Subscript | Cummulative_analysis_class_str.py:188 | `v[key]` gives the first value under `key` in a dict, raises `KeyError(repr(key))` when the dict lacks the key, and raises `TypeError` on any other type |
| Values.StrRepr | Cummulative_analysis_class_str.py:188 | `repr` of a string is quoted with `'` unless the string holds `'` and no `"`, and the quoted text has no raw newline |
| Exceptions.BuiltinInstance | Segment_analysis_server_openAI_class_str.py:99-122 | an instance of a built-in class is caught by `except d` exactly when its class derives from d |
| Exceptions.SubclassTransitive | Segment_analysis_server_openAI_class_str.py:99-122 | the class relation `except` tests is transitive |
| Exceptions.MapAll | FInal_code/Cummulative_analysis_class_str.py:231 | an element-wise call returns exactly when every element's call returns, gives the results in order, and otherwise raises the first element's exception |
| RequestGuard.Guard | Segment_analysis_server_openAI_class_str.py:93-94 | the request passes exactly when it has a `str` attribute `text` and yields that text; otherwise it raises the guard's ValueError |
| RequestGuard.FirstHandler | Segment_analysis_server_openAI_class_str.py:99-120 | the clause index found catches the exception and no earlier clause does; none found means no clause catches it |
| RequestGuard.CatchAll | Segment_analysis_server_openAI_class_str.py:122-132 | the catch-all dict has `error` and `details` = `str(e)`; `error` is "OpenAI API Error" when the lowered type name contains "openai", otherwise "LangChain Error" when it contains "langchain", otherwise "Unexpected error" |
| RequestGuard.LangChainWithoutOpenAI | Segment_analysis_server_openAI_class_str.py:124-129 | an exception past the table whose type name mentions "langchain" and not "openai" gets "LangChain Error" with its message |
| RequestGuard.Handle | Segment_analysis_server_openAI_class_str.py:99-132 | an exception escapes only unchanged and only if it is not an `Exception`; otherwise the answer is a 1- or 2-entry dict led by `error` |
| RequestGuard.FirstMatchWins | Segment_analysis_server_openAI_class_str.py:99-120 | the first clause in the order AttributeError, ValueError, TypeError, RuntimeError, TimeoutError, ConnectionError that catches the exception gives its fixed single-key dict |
| RequestGuard.NothingEscapes | Segment_analysis_server_openAI_class_str.py:92-132 | the try statement raises exactly for exceptions that are not an `Exception` |
| RequestGuard.BuiltinNeverEscapes | FInal_code/Cummulative_analysis_class_str.py:148-181 | every built-in exception below `Exception` becomes a returned dict |
| RequestGuard.TimeoutBeforeConnection | Segment_analysis_server_openAI_class_str.py:114-120 | an exception that is both a TimeoutError and a ConnectionError reports a timeout, the earlier clause |
| RequestGuard.LibraryValueErrorIsMissingText | Segment_analysis_server_openAI.py:105-107 | a library exception that also derives from ValueError is reported as a missing text, before the catch-all could name its library |
| RequestGuard.UnhandledReachesCatchAll | Segment_analysis_server_openAI.py:124-134 | an `Exception` that no table clause catches gets the catch-all dict |
| RequestGuard.OpenAIBeforeLangChain | Segment_analysis_server_openAI.py:128-131 | past the table, "openai" in the lowered type name decides before "langchain" is looked at |
| RequestGuard.PlainExceptionPassesTable | FInal_code/Cummulative_analysis_class_str.py:148-171 | a class derived only from `Exception` passes every named clause |
| RequestGuard.BothLibrariesIsOpenAI | Segment_analysis_server_openAI_class_str.py:126-129 | a class named `langchain_openai.OpenAIError` is reported as "OpenAI API Error" |
| RequestGuard.KeyErrorIsUnexpected | FInal_code/Cummulative_analysis_class_str.py:171-181 | a KeyError is reported as "Unexpected error" with its message as details |
| RequestGuard.CatchAttributeError | FInal_code/Cummulative_analysis_class_str.py:212-214 | a lone `except AttributeError` returns the table's first dict for an AttributeError and lets every other outcome through unchanged |
| RequestGuard.CatchAttributeErrorAgreesWithTable | Cummulative_analysis_class_str.py:195-197 | for an AttributeError, the lone clause gives the same dict as the full table |
| RequestGuard.GuardedInvoke | FInal_code/Cummulative_analysis_class_str.py:141-181 | a rejected request gives `{"error": "Invalid request:Missing text"}`; an accepted one sends `{"text": text}` to the chain and returns its output unchanged, or the table's answer when the chain raises |
| RequestGuard.RejectedRequestSkipsModel | Segment_analysis_server_openAI.py:95-96 | a missing or non-`str` text gives the missing-text dict whatever the model would do |
| RequestGuard.EmptyTextAccepted | Segment_analysis_server_openAI_class_str.py:93-97 | the empty string passes the guard and the chain's answer comes back as it is |
| RequestGuard.GuardedInvokeReturns | Segment_analysis_server_openAI_class_str.py:92-132 | if the chain raises only `Exception`s, the method always returns a value |
| RequestGuard.InitModel | Segment_analysis_server_openAI_class_str.py:48-66 | a ValueError and then a ConnectionError from `init_chat_model` become RuntimeError "Model initialization failed: ..." with the matching reason; other exceptions propagate; a returned `None` raises UnboundLocalError; only a model comes back |
| RequestGuard.NewSegmentAnalysis | Segment_analysis_server_openAI_class_str.py:44-66 | an object is built exactly when initialisation returned a model, and it holds that model; otherwise the initialisation error propagates |
| RequestGuard.Classify | Segment_analysis_server_openAI_class_str.py:87-132 | on the stored model: a rejected request gives the missing-text dict; otherwise the chain's answer, or the handler table's dict for its exception; only a non-`Exception` escapes |
| RequestGuard.ReviewAnalyzerTool | Segment_analysis_server_openAI.py:55-135 | a ValueError at initialisation raises the RuntimeError for invalid parameters, a ConnectionError the one for the provider, any other exception propagates unchanged, a `None` model raises UnboundLocalError; a model that initialises gives the guarded call on it |
| RequestGuard.InitFailureSkipsModel | Segment_analysis_server_openAI.py:55-73 | when initialisation fails the endpoint raises, whatever the chain would do |
| RequestGuard.InitFailureEscapes | Segment_analysis_server_openAI.py:56-73 | a ValueError or ConnectionError at initialisation leaves the endpoint as a RuntimeError, which the endpoint's own table would have turned into the runtime-error dict |
| ReviewFormatter.ReviewBlock | Cummulative_analysis_class_str.py:188 | a block is produced exactly when the dict has `text`, `sentiment` and `tags`; otherwise it raises KeyError or TypeError |
| ReviewFormatter.FormatReviews | Cummulative_analysis_class_str.py:187-189 | on a list, formatting succeeds exactly when every review has the three keys; it can raise only KeyError or TypeError |
| ReviewFormatter.BlockReadsThreeKeys | Cummulative_analysis_class_str.py:188 | two dicts that agree on the three keys give the same block: no other key is read |
| ReviewFormatter.BlockOfComplete | Cummulative_analysis_class_str.py:188 | the block is exactly "Review: …\nSentiment: …\nTag: …" over the `str()` of the three values |
| ReviewFormatter.FormatInOrder | Cummulative_analysis_class_str.py:187-189 | the text is the blocks in input order joined by single newlines |
| ReviewFormatter.EmptyBatch | Cummulative_analysis_class_str.py:187-189 | an empty list gives "" |
| ReviewFormatter.FormatSnoc | Cummulative_analysis_class_str.py:187-189 | appending a review appends one "\n" and its block, with no trailing separator |
| ReviewFormatter.BatchLines | Cummulative_analysis_class_str.py:187-189 | a non-empty list whose values render without newlines gives exactly 3·len − 1 newlines: 3·len lines |
| ReviewFormatter.BlocksNewlines | Cummulative_analysis_class_str.py:188 | those blocks hold two newlines each |
| ReviewFormatter.ListTagsExample | cumm_analysis_cls_str.py:16 | list-valued tags appear as their list repr: the sample review's Tag line reads `['UI/UX', 'Mobile']` |
| ReviewFormatter.CumulativeAnalysis | Cummulative_analysis_class_str.py:180-197 | formatting errors propagate; otherwise the chain gets the text under `reviews`, and only AttributeError from it is caught |
| ReviewFormatter.FormatErrorsAreNotAttributeErrors | Cummulative_analysis_class_str.py:187-197 | no formatting error is an AttributeError, so the handler never catches one |
| ReviewFormatter.IgnoresClassification | Cummulative_analysis_class_str.py:180-192 | the answer does not depend on `review_classification_json` |
| ReviewFormatter.MissingTextEscapes | Cummulative_analysis_class_str.py:188-197 | a review missing `text`, after complete ones, makes the method raise `KeyError('text')` |
| CumulativeAnalysis.ChunkKey | FInal_code/Cummulative_analysis_class_str.py:198-199 | the task for the chunk at position j is keyed by `enumerate(start=1)`'s number plus one |
| CumulativeAnalysis.TaskInput | FInal_code/Cummulative_analysis_class_str.py:198 | as written every task's input is `{"reviews": last chunk}`; with per-chunk binding it is its own chunk |
| CumulativeAnalysis.RunTasks | FInal_code/Cummulative_analysis_class_str.py:197-201 | the runner returns exactly when every task's chain returns, with one entry per chunk, in order, keyed `ChunkKey(j)`, holding that task's output; otherwise it raises some task's exception |
| CumulativeAnalysis.JoinLines | FInal_code/Cummulative_analysis_class_str.py:206 | `"\n".join` succeeds exactly when every item is a `str` and then joins their texts; otherwise it raises TypeError |
| CumulativeAnalysis.Reduce | FInal_code/Cummulative_analysis_class_str.py:202-209 | a returned answer is the pair whose first element is the runner's results dict |
| Exceptions.MapEach | FInal_code/Cummulative_analysis_class_str.py:202-203 | a loop that appends each element's result and stops at the first exception computes exactly `MapAll` |
| CumulativeAnalysis.CollectSummaries | FInal_code/Cummulative_analysis_class_str.py:202-203 | the append loop collects `res["summary"]` of every result in order, or stops at the first failing subscript with its exception |
| CumulativeAnalysis.GenerateParallel | FInal_code/Cummulative_analysis_class_str.py:183-214 | the method computes exactly `ParallelSpec`: empty answer, `None`, or run-collect-join-final-chain, with AttributeError caught |
| CumulativeAnalysis.EmptyChunksCallNoChain | FInal_code/Cummulative_analysis_class_str.py:191-192 | falsy `chunks` return `({}, {"summary": "", "key_insights": []})` whatever either chain would do |
| CumulativeAnalysis.NonListGivesNone | FInal_code/Cummulative_analysis_class_str.py:195-209 | a truthy non-list falls through the `isinstance` test and the method returns `None` |
| CumulativeAnalysis.ChunkKeysDistinct | FInal_code/Cummulative_analysis_class_str.py:198 | different chunks get different keys |
| CumulativeAnalysis.KeyRange | FInal_code/Cummulative_analysis_class_str.py:197-199 | the keys run from `chunk_2` to `chunk_{n+1}` |
| CumulativeAnalysis.RunKeys | FInal_code/Cummulative_analysis_class_str.py:197-201 | a successful run has one entry per chunk, with pairwise distinct keys |
| CumulativeAnalysis.LateBoundTasksSeeLastChunk | FInal_code/Cummulative_analysis_class_str.py:198-201 | as written, every task is sent `{"reviews": <last chunk>}` and stores the chain's answer to that input under its own key |
| CumulativeAnalysis.PerChunkTasksSeeOwnChunk | FInal_code/Cummulative_analysis_class_str.py:198 | with the intended binding every entry is the chain's answer to its own chunk |
| CumulativeAnalysis.LateBindingCounterexample | FInal_code/Cummulative_analysis_class_str.py:198 | for two distinct chunks, the task `chunk_2` is sent the second chunk as written and the first with the intended binding |
| CumulativeAnalysis.SummariesJoinedInOrder | FInal_code/Cummulative_analysis_class_str.py:202-209 | when every result has a `str` summary, the final chain gets those summaries in result order joined by "\n", and the answer is `(results, final_summary)` |
| CumulativeAnalysis.FirstMissingKey | FInal_code/Cummulative_analysis_class_str.py:202-203 | subscripting dicts of which some lack the key raises `KeyError(repr(key))` |
| CumulativeAnalysis.MissingSummaryRaises | FInal_code/Cummulative_analysis_class_str.py:202-203 | a result dict lacking `"summary"` raises `KeyError('summary')` before the final chain is called |
| CumulativeAnalysis.MissingSummaryEscapes | FInal_code/Cummulative_analysis_class_str.py:202-214 | that KeyError is not caught and leaves the method |
| CumulativeAnalysis.AttributeErrorGivesSingleDict | FInal_code/Cummulative_analysis_class_str.py:212-214 | an AttributeError from a task returns the single error dict, not a pair |
| CumulativeAnalysis.GenerateSequential | FInal_code/Cummulative_analysis_class_str.py:216-237 | a `str` makes one chain call whose answer is returned; a list whose calls all return gives one result per element, in order; any other type gives `None` |
| CumulativeAnalysis.SequentialBatchFailure | FInal_code/Cummulative_analysis_class_str.py:229-237 | in the element-by-element model, a batch fails with the first failing element's exception, caught only if it is an AttributeError |
| CumulativeAnalysis.SequentialBatchSomeFailure | FInal_code/Cummulative_analysis_class_str.py:229-237 | a batch with a failing element fails with some failing element's exception, caught only if it is an AttributeError |

## Left out

- File I/O: the reviews file is given as its sequence of lines, as the file iterator yields them. Universal-newline translation and the encoding are not modelled.
- `json.loads` is an abstract partial function `decode`, with `None` standing for a `JSONDecodeError`. The JSON grammar of RFC 8259 is not modelled. Other exceptions `json.loads` can raise are not modelled, such as `RecursionError` on deeply nested input. Such an exception is not a `JSONDecodeError`, so it would escape the reading loop and end the script.
- The language model, the prompt templates (`Prompt_Generator`, `Cumm_Prompt_Generator`) and `JsonOutputParser` are abstract `pipeline` parameters. The parser does not check the Pydantic schema, so no label set or count constraint is enforced on model output. Building the chain before `try` cannot fail in the model.
- Which concrete library exceptions derive from ValueError, ConnectionError and so on is not visible in the source. Exceptions are therefore given by their set of built-in bases and their printed type name.
- `RunnableParallel` runs its tasks concurrently. It is modelled as a sequential map that stops at the first exception, with no claim about timing or about which concurrent failure is reported first.
- CumulativeAnalysis.GenerateSequential: `chain.batch(request)` is modelled element by element, each element going through the whole chain before the next. `RunnableSequence.batch` runs each stage of `prompt | llm | parser` over the whole batch before the next stage. When elements fail in different stages, the library reports the failure of the earliest failing stage, which may belong to a later element.
- CumulativeAnalysis.SequentialBatchFailure: the first failing element's exception is what the element-by-element model reports, not a promise of the library's stage-by-stage batch. CumulativeAnalysis.SequentialBatchSomeFailure states what holds under either order: the batch fails with some failing element's exception.
- `async`/`await`: the coroutine methods are modelled as plain calls.
- The chain is a deterministic function of its input. The model samples at `temperature=0.7`, so two calls with the same input may answer differently; the lemmas about the runner therefore speak of what each task is sent and that each stored answer is an answer to that input, not of two tasks receiving equal answers.
- `print` and `traceback.format_exc` have no effect on answers and are left out.
- Module-level environment checks (`load_dotenv`, the EnvironmentError on a missing key) and the FastAPI `app` objects are left out.
- The drivers that hold the sample reviews and write results and timings, `agent_client.py`, `agent_client_cls_str.py` and `llm_server_chain_method.py` are not part of this model. Only review6 of the sample reviews is used, as a concrete example.
- Text.Lower: folds ASCII letters only; Unicode case folding is not modelled.
- Values.StrRepr: escapes backslash, quote, `\n`, `\r` and `\t`; other non-printable characters shown by `\x..` escapes are not modelled.
- ChunkPlanner.ChunkListDynamic: yields eagerly as a list; the generator's laziness and the default `num_chunks=10` are not modelled.
- CumulativeAnalysis.RunTasks: its failure clause says only that the exception is some task's; which task fails first under concurrency is left open.
- Values: floats are not modelled; numbers are Python `int`s.

## Findings

| source | as written | input that shows it | evidently intended | confidence | as-written member | corrected member |
|---|---|---|---|---|---|---|
| FInal_code/Cummulative_analysis_class_str.py:198 | each task's `lambda _: {"reviews": chunk}` reads the comprehension variable when the runner calls it, so every task is sent the last chunk | two distinct chunks: task `chunk_2` is sent the second chunk | every task is sent its own chunk | not executed | CumulativeAnalysis.LateBindingCounterexample | CumulativeAnalysis.PerChunkTasksSeeOwnChunk |
| FInal_code/cumm_analysis_cls_str.py:60-63 | `chunk_size = max(1, n // num_chunks)` can yield more than `num_chunks` chunks, contrary to the docstring | 7 items, `num_chunks=2`: chunks of 3, 3 and 1 | `num_chunks` nearly equal parts: at most `num_chunks` chunks, none empty, lengths differing by at most one | not executed | ChunkPlanner.SevenIntoTwo | ChunkPlanner.BalancedPartition |
