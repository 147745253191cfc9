/**
 * The single-review classifier: model initialisation with its failure rule,
 * the guard on the request's `text`, the call of the prompt-model-parser
 * chain, and the table of `except` clauses that turns an exception raised in
 * the try statement into an error dict. The same guard and table appear in the
 * class method of both class-based services and in the stand-alone endpoint.
 */
module RequestGuard {
  import opened Exceptions
  import opened Text
  import opened Values

  /** `{"error": message}`. */
  function ErrorDict(message: string): (d: Value)
    ensures d.PyDict? && |d.entries| == 1 && Lookup(d.entries, "error") == Some(PyStr(message))
  {
    StrDict("error", message)
  }

  /** `{"error": message, "details": details}`. */
  function DetailedError(message: string, details: string): (d: Value)
    ensures d.PyDict? && |d.entries| == 2
    ensures Lookup(d.entries, "error") == Some(PyStr(message))
    ensures Lookup(d.entries, "details") == Some(PyStr(details))
  {
    PyDict([Entry("error", PyStr(message)), Entry("details", PyStr(details))])
  }

  /** The `except` clauses that name a built-in class, in the order written, with the message each returns. */
  const Handlers: seq<(ExcClass, string)> := [
    (AttributeError, "Invalid request: missing 'text'"),
    (ValueError, "Invalid request:Missing text"),
    (TypeError, "Type error during chain execution"),
    (RuntimeError, "Runtime error during chain execution"),
    (TimeoutError, "Timeout during model response"),
    (ConnectionError, "Failed to connect to model API")
  ]

  /** The index of the first clause of `hs` that catches `e`. */
  function FirstHandler(hs: seq<(ExcClass, string)>, e: Exc): (r: Option<nat>)
    ensures r.Some? ==> r.value < |hs| && IsInstance(e, hs[r.value].0)
    ensures r.Some? ==> forall k :: 0 <= k < r.value ==> !IsInstance(e, hs[k].0)
    ensures r.None? ==> forall k :: 0 <= k < |hs| ==> !IsInstance(e, hs[k].0)
  {
    if hs == [] then None
    else if IsInstance(e, hs[0].0) then Some(0)
    else
      match FirstHandler(hs[1..], e)
      case None => None
      case Some(k) => Some(k + 1)
  }

  /**
   * The final `except Exception` clause, which names the library by looking
   * for "openai" and then "langchain" in `str(type(e)).lower()`.
   */
  function CatchAll(e: Exc): (d: Value)
    ensures d.PyDict? && |d.entries| == 2 && Lookup(d.entries, "details") == Some(PyStr(e.message))
    ensures Contains(Lower(e.typeRepr), "openai") ==>
      Lookup(d.entries, "error") == Some(PyStr("OpenAI API Error"))
    ensures !Contains(Lower(e.typeRepr), "openai") && Contains(Lower(e.typeRepr), "langchain") ==>
      Lookup(d.entries, "error") == Some(PyStr("LangChain Error"))
    ensures !Contains(Lower(e.typeRepr), "openai") && !Contains(Lower(e.typeRepr), "langchain") ==>
      Lookup(d.entries, "error") == Some(PyStr("Unexpected error"))
  {
    var typeName := Lower(e.typeRepr);
    if Contains(typeName, "openai") then DetailedError("OpenAI API Error", e.message)
    else if Contains(typeName, "langchain") then DetailedError("LangChain Error", e.message)
    else DetailedError("Unexpected error", e.message)
  }

  /**
   * What the try statement makes of an exception raised inside it: the dict
   * of the first clause that catches it; an exception no clause catches (one
   * that is not an `Exception`) propagates unchanged.
   */
  function Handle(e: Exc): (r: Outcome<Value>)
    ensures r.Raised? ==> r == Raised(e) && !IsInstance(e, Exception)
    ensures r.Returned? ==> r.value.PyDict? && 1 <= |r.value.entries| <= 2 && r.value.entries[0].key == "error"
  {
    match FirstHandler(Handlers, e)
    case Some(k) => Returned(ErrorDict(Handlers[k].1))
    case None => if IsInstance(e, Exception) then Returned(CatchAll(e)) else Raised(e)
  }

  /**
   * A try statement whose only clause is `except AttributeError`, returning
   * the same dict as the first clause of the table; everything else passes.
   */
  function CatchAttributeError(o: Outcome<Value>): (r: Outcome<Value>)
    ensures o.Returned? ==> r == o
    ensures o.Raised? && IsInstance(o.exc, AttributeError) ==> r == Returned(ErrorDict(Handlers[0].1))
    ensures o.Raised? && !IsInstance(o.exc, AttributeError) ==> r == o
  {
    if o.Raised? && IsInstance(o.exc, AttributeError) then Returned(ErrorDict("Invalid request: missing 'text'"))
    else o
  }

  // ----- properties of the handler table -----

  /** An exception of a class with the two built-in bases `a` and `b`. */
  lemma InstanceOfPair(e: Exc, a: ExcClass, b: ExcClass, c: ExcClass)
    requires e.bases == {a, b}
    ensures IsInstance(e, c) <==> IsSubclass(a, c) || IsSubclass(b, c)
  {
    SomeOfPair(e.bases, a, b, x => IsSubclass(x, c));
  }

  /** Some member of `{a, b}` has property `p` exactly when `a` or `b` has it. */
  lemma SomeOfPair<T>(s: set<T>, a: T, b: T, p: T -> bool)
    requires s == {a, b}
    ensures (exists x :: x in s && p(x)) <==> p(a) || p(b)
  {
    if exists x :: x in s && p(x) {
      var x :| x in s && p(x);
      assert x == a || x == b;
    }
    if p(a) {
      assert a in s;
    }
    if p(b) {
      assert b in s;
    }
  }

  /** The lone `except AttributeError` answers as the first clause of the full table does. */
  lemma CatchAttributeErrorAgreesWithTable(e: Exc)
    requires IsInstance(e, AttributeError)
    ensures CatchAttributeError(Raised(e)) == Handle(e)
  {
    FirstMatchWins(e, 0);
  }

  /** The clause that answers is the first one in the table whose class `e` is an instance of. */
  lemma FirstMatchWins(e: Exc, k: nat)
    requires k < |Handlers| && IsInstance(e, Handlers[k].0)
    requires forall j :: 0 <= j < k ==> !IsInstance(e, Handlers[j].0)
    ensures Handle(e) == Returned(ErrorDict(Handlers[k].1))
  {
    var r := FirstHandler(Handlers, e);
    assert r.Some? && r.value == k;
  }

  /** Every class the table names derives from `Exception`. */
  lemma HandlersAreExceptions(k: nat)
    requires k < |Handlers|
    ensures IsSubclass(Handlers[k].0, Exception)
  {
  }

  /** An exception escapes the try statement exactly when it is not an `Exception`. */
  lemma NothingEscapes(e: Exc)
    ensures Handle(e).Raised? <==> !IsInstance(e, Exception)
  {
    match FirstHandler(Handlers, e)
    case None =>
    case Some(k) =>
      var b :| b in e.bases && IsSubclass(b, Handlers[k].0);
      HandlersAreExceptions(k);
      SubclassTransitive(b, Handlers[k].0, Exception);
  }

  /** An instance of a built-in subclass of `Exception` never escapes. */
  lemma BuiltinNeverEscapes(c: ExcClass, message: string)
    requires IsSubclass(c, Exception)
    ensures Handle(Builtin(c, message)).Returned?
  {
    BuiltinInstance(c, message, Exception);
    NothingEscapes(Builtin(c, message));
  }

  /**
   * An exception of two handled classes gets the message of the one written
   * first: one that is both a `TimeoutError` and a `ConnectionError` reports a
   * timeout.
   */
  lemma TimeoutBeforeConnection(message: string)
    ensures Handle(Exc({TimeoutError, ConnectionError}, "<class 'TimeoutError'>", message))
         == Returned(ErrorDict("Timeout during model response"))
  {
    var e := Exc({TimeoutError, ConnectionError}, "<class 'TimeoutError'>", message);
    forall k | 0 <= k <= 4
      ensures IsInstance(e, Handlers[k].0) <==> IsSubclass(TimeoutError, Handlers[k].0) || IsSubclass(ConnectionError, Handlers[k].0)
    {
      InstanceOfPair(e, TimeoutError, ConnectionError, Handlers[k].0);
    }
    FirstMatchWins(e, 4);
  }

  /**
   * A library exception that also derives from `ValueError` is caught as a
   * missing text, before the catch-all could name its library.
   */
  lemma LibraryValueErrorIsMissingText(typeRepr: string, message: string)
    ensures Handle(Exc({ValueError, Exception}, typeRepr, message))
         == Returned(ErrorDict("Invalid request:Missing text"))
  {
    var e := Exc({ValueError, Exception}, typeRepr, message);
    InstanceOfPair(e, ValueError, Exception, AttributeError);
    InstanceOfPair(e, ValueError, Exception, ValueError);
    FirstMatchWins(e, 1);
  }

  /** An `Exception` that no clause of the table catches reaches the catch-all. */
  lemma UnhandledReachesCatchAll(e: Exc)
    requires IsInstance(e, Exception) && FirstHandler(Handlers, e).None?
    ensures Handle(e) == Returned(CatchAll(e))
  {
  }

  /** Past the table, "openai" in the type name is tested before "langchain". */
  lemma OpenAIBeforeLangChain(e: Exc)
    requires IsInstance(e, Exception) && FirstHandler(Handlers, e).None?
    requires Contains(Lower(e.typeRepr), "openai")
    ensures Handle(e) == Returned(DetailedError("OpenAI API Error", e.message))
  {
  }

  /** A type name that mentions "langchain" but not "openai" past the table gives "LangChain Error". */
  lemma LangChainWithoutOpenAI(e: Exc)
    requires IsInstance(e, Exception) && FirstHandler(Handlers, e).None?
    requires !Contains(Lower(e.typeRepr), "openai") && Contains(Lower(e.typeRepr), "langchain")
    ensures Handle(e) == Returned(DetailedError("LangChain Error", e.message))
  {
  }

  /** A library class that derives from no built-in class below `Exception` passes the whole table. */
  lemma PlainExceptionPassesTable(typeRepr: string, message: string)
    ensures var e := Exc({Exception}, typeRepr, message);
      IsInstance(e, Exception) && FirstHandler(Handlers, e).None?
  {
    var e := Exc({Exception}, typeRepr, message);
    assert Exception in e.bases;
    assert forall k :: 0 <= k < |Handlers| ==> !IsInstance(e, Handlers[k].0);
  }

  /** The lowered name of a class from the LangChain package for OpenAI mentions "openai". */
  lemma MixedNameMentionsOpenAI()
    ensures Contains(Lower("<class 'langchain_openai.OpenAIError'>"), "openai")
  {
    LowerKeepsOccurrence("<class 'langchain_openai.OpenAIError'>", "openai", 18);
  }

  /** A class whose printed name mentions both libraries is reported as an OpenAI error. */
  lemma BothLibrariesIsOpenAI(message: string)
    ensures Handle(Exc({Exception}, "<class 'langchain_openai.OpenAIError'>", message))
         == Returned(DetailedError("OpenAI API Error", message))
  {
    var e := Exc({Exception}, "<class 'langchain_openai.OpenAIError'>", message);
    PlainExceptionPassesTable(e.typeRepr, message);
    MixedNameMentionsOpenAI();
    UnhandledReachesCatchAll(e);
  }

  /** The built-in `KeyError` is caught by no clause of the table. */
  lemma KeyErrorPassesTable(message: string)
    ensures IsInstance(Builtin(KeyError, message), Exception)
    ensures FirstHandler(Handlers, Builtin(KeyError, message)).None?
  {
    forall k | 0 <= k < |Handlers| ensures !IsInstance(Builtin(KeyError, message), Handlers[k].0) {
      BuiltinInstance(KeyError, message, Handlers[k].0);
    }
    BuiltinInstance(KeyError, message, Exception);
  }

  /** `str(KeyError).lower()` names neither library. */
  lemma KeyErrorNamesNoLibrary()
    ensures !Contains(Lower("<class 'KeyError'>"), "openai")
    ensures !Contains(Lower("<class 'KeyError'>"), "langchain")
  {
    LowerMissing("<class 'KeyError'>", 'p');
    LowerMissing("<class 'KeyError'>", 'g');
    MissingCharNotContained(Lower("<class 'KeyError'>"), "openai", 'p');
    MissingCharNotContained(Lower("<class 'KeyError'>"), "langchain", 'g');
  }

  /** A `KeyError` raised inside the chain reaches the catch-all and is reported as unexpected. */
  lemma KeyErrorIsUnexpected(message: string)
    ensures Handle(Builtin(KeyError, message)) == Returned(DetailedError("Unexpected error", message))
  {
    var e := Builtin(KeyError, message);
    KeyErrorPassesTable(message);
    UnhandledReachesCatchAll(e);
    KeyErrorTypeName(message);
    KeyErrorNamesNoLibrary();
    NoLibraryIsUnexpected(e);
  }

  /** `str(type(e))` of a `KeyError`. */
  lemma KeyErrorTypeName(message: string)
    ensures Builtin(KeyError, message).typeRepr == "<class 'KeyError'>"
  {
  }

  /** A type name that mentions neither library gives "Unexpected error". */
  lemma NoLibraryIsUnexpected(e: Exc)
    requires !Contains(Lower(e.typeRepr), "openai") && !Contains(Lower(e.typeRepr), "langchain")
    ensures CatchAll(e) == DetailedError("Unexpected error", e.message)
  {
  }

  // ----- the request and the guarded call -----

  /** A request object: `text` is its `text` attribute, `None` when it has none. */
  datatype Request = Request(text: Option<Value>)

  /** The guard: the text when the request has a `str` attribute `text`, else the `ValueError`. */
  function Guard(request: Request): (r: Outcome<string>)
    ensures r.Returned? <==> request.text.Some? && request.text.value.PyStr?
    ensures r.Returned? ==> r.value == request.text.value.s
    ensures r.Raised? ==> r.exc == Builtin(ValueError, "Invalid or missing 'text' in request")
  {
    if request.text.Some? && request.text.value.PyStr? then Returned(request.text.value.s)
    else Raised(Builtin(ValueError, "Invalid or missing 'text' in request"))
  }

  /**
   * The try statement around the guard and `chain.invoke({"text": request.text})`,
   * where `chain` applies `pipeline` with the model `llm`.
   */
  function GuardedInvoke<L>(llm: L, request: Request, pipeline: (L, Value) -> Outcome<Value>): (r: Outcome<Value>)
    ensures Guard(request).Raised? ==> r == Returned(ErrorDict("Invalid request:Missing text"))
    ensures Guard(request).Returned? ==>
      var out := pipeline(llm, StrDict("text", Guard(request).value));
      r == if out.Returned? then out else Handle(out.exc)
  {
    var body := (
      var text :- Guard(request);
      pipeline(llm, StrDict("text", text)));
    if body.Raised? then
      (if Guard(request).Raised? then
         var e := Builtin(ValueError, "Invalid or missing 'text' in request");
         BuiltinInstance(ValueError, "Invalid or missing 'text' in request", AttributeError);
         BuiltinInstance(ValueError, "Invalid or missing 'text' in request", ValueError);
         FirstMatchWins(e, 1);
         Handle(e)
       else Handle(body.exc))
    else body
  }

  /** A rejected request never reaches the model: the answer does not depend on the pipeline. */
  lemma RejectedRequestSkipsModel<L>(llm: L, request: Request, p1: (L, Value) -> Outcome<Value>, p2: (L, Value) -> Outcome<Value>)
    requires request.text.None? || !request.text.value.PyStr?
    ensures GuardedInvoke(llm, request, p1) == GuardedInvoke(llm, request, p2)
         == Returned(ErrorDict("Invalid request:Missing text"))
  {
  }

  /** The empty string passes the guard and is sent to the model as it is. */
  lemma EmptyTextAccepted<L>(llm: L, pipeline: (L, Value) -> Outcome<Value>)
    ensures pipeline(llm, StrDict("text", "")).Returned? ==>
      GuardedInvoke(llm, Request(Some(PyStr(""))), pipeline) == pipeline(llm, StrDict("text", ""))
  {
  }

  /** A call that returns or raises only an `Exception` always gives back a value: nothing escapes. */
  lemma GuardedInvokeReturns<L>(llm: L, request: Request, pipeline: (L, Value) -> Outcome<Value>)
    requires forall v :: pipeline(llm, v).Raised? ==> IsInstance(pipeline(llm, v).exc, Exception)
    ensures GuardedInvoke(llm, request, pipeline).Returned?
  {
    if Guard(request).Returned? {
      var out := pipeline(llm, StrDict("text", Guard(request).value));
      if out.Raised? {
        NothingEscapes(out.exc);
      }
    }
  }

  // ----- model initialisation -----

  /** The two reasons a failed initialisation gives. */
  const InvalidParameters := "Invalid parameters for model initialization."
  const ProviderUnreachable := "Failed to connect to model provider."

  /** What reading the never-assigned `error_message` raises. */
  const UnboundErrorMessage := "cannot access local variable 'error_message' where it is not associated with a value"

  /** The message of the `RuntimeError` for a failed initialisation. */
  function InitFailure(reason: string): (e: Exc)
    ensures e.bases == {RuntimeError}
  {
    Builtin(RuntimeError, "Model initialization failed: " + reason)
  }

  /**
   * `init_chat_model(...)` and the rule after it: a `ValueError` or a
   * `ConnectionError` from the call becomes a `RuntimeError` naming the cause;
   * any other exception propagates; a call that returns `None` leaves
   * `error_message` unbound, so reading it raises `UnboundLocalError`.
   */
  function InitModel<L>(init: Outcome<Option<L>>): (r: Outcome<L>)
    ensures r.Returned? <==> init.Returned? && init.value.Some?
    ensures r.Returned? ==> r.value == init.value.value
    ensures init.Raised? && IsInstance(init.exc, ValueError) ==>
      r == Raised(InitFailure(InvalidParameters))
    ensures init.Raised? && !IsInstance(init.exc, ValueError) && IsInstance(init.exc, ConnectionError) ==>
      r == Raised(InitFailure(ProviderUnreachable))
    ensures init.Raised? && !IsInstance(init.exc, ValueError) && !IsInstance(init.exc, ConnectionError) ==>
      r == init.PropagateFailure()
    ensures init == Returned(None) ==> r.Raised? && r.exc.bases == {UnboundLocalError}
  {
    match init
    case Raised(e) =>
      if IsInstance(e, ValueError) then Raised(InitFailure(InvalidParameters))
      else if IsInstance(e, ConnectionError) then Raised(InitFailure(ProviderUnreachable))
      else Raised(e)
    case Returned(None) =>
      Raised(Builtin(UnboundLocalError, UnboundErrorMessage))
    case Returned(Some(llm)) => Returned(llm)
  }

  /** An object of the class-based service: the model its constructor stored. */
  datatype SegmentAnalysis<L> = SegmentAnalysis(llm: L)

  /** `Segment_Analysis()`: no object is ever built without a model. */
  function NewSegmentAnalysis<L>(init: Outcome<Option<L>>): (r: Outcome<SegmentAnalysis<L>>)
    ensures r.Returned? <==> init.Returned? && init.value.Some?
    ensures r.Returned? ==> init == Returned(Some(r.value.llm))
    ensures r.Raised? ==> r == InitModel(init).PropagateFailure()
  {
    var llm :- InitModel(init);
    Returned(SegmentAnalysis(llm))
  }

  /** `Sentiment_and_Segment_Generator(request, chat_prompt)` on an object. */
  function Classify<L>(self: SegmentAnalysis<L>, request: Request, pipeline: (L, Value) -> Outcome<Value>): (r: Outcome<Value>)
    ensures Guard(request).Raised? ==> r == Returned(ErrorDict("Invalid request:Missing text"))
    ensures Guard(request).Returned? ==>
      var out := pipeline(self.llm, StrDict("text", Guard(request).value));
      (out.Returned? ==> r == out) && (out.Raised? ==> r == Handle(out.exc))
    ensures r.Raised? ==> !IsInstance(r.exc, Exception)
  {
    GuardedInvoke(self.llm, request, pipeline)
  }

  /**
   * The stand-alone endpoint: the model is initialised on every call, before
   * the try statement, so its failure propagates instead of becoming a dict.
   */
  function ReviewAnalyzerTool<L>(request: Request, init: Outcome<Option<L>>, pipeline: (L, Value) -> Outcome<Value>): (r: Outcome<Value>)
    ensures init.Raised? && IsInstance(init.exc, ValueError) ==>
      r == Raised(InitFailure(InvalidParameters))
    ensures init.Raised? && !IsInstance(init.exc, ValueError) && IsInstance(init.exc, ConnectionError) ==>
      r == Raised(InitFailure(ProviderUnreachable))
    ensures init.Raised? && !IsInstance(init.exc, ValueError) && !IsInstance(init.exc, ConnectionError) ==>
      r == Raised(init.exc)
    ensures init == Returned(None) ==> r.Raised? && r.exc.bases == {UnboundLocalError}
    ensures init.Returned? && init.value.Some? ==> r == GuardedInvoke(init.value.value, request, pipeline)
  {
    var llm :- InitModel(init);
    GuardedInvoke(llm, request, pipeline)
  }

  /**
   * A failed initialisation reaches the endpoint's caller as a `RuntimeError`,
   * although the endpoint's own table would have turned one into a dict.
   */
  lemma InitFailureEscapes<L>(request: Request, cause: Exc, pipeline: (L, Value) -> Outcome<Value>)
    requires IsInstance(cause, ValueError) || IsInstance(cause, ConnectionError)
    ensures var r := ReviewAnalyzerTool(request, Raised(cause), pipeline);
      r.Raised? && IsInstance(r.exc, RuntimeError)
    ensures Handle(ReviewAnalyzerTool(request, Raised(cause), pipeline).exc)
         == Returned(ErrorDict("Runtime error during chain execution"))
  {
    var r := ReviewAnalyzerTool(request, Raised(cause), pipeline);
    var msg := r.exc.message;
    assert r.exc == Builtin(RuntimeError, msg);
    forall k | 0 <= k <= 3 ensures IsInstance(r.exc, Handlers[k].0) <==> IsSubclass(RuntimeError, Handlers[k].0) {
      BuiltinInstance(RuntimeError, msg, Handlers[k].0);
    }
    FirstMatchWins(r.exc, 3);
  }

  /** A failed initialisation is decided before the chain exists: the answer does not depend on the pipeline. */
  lemma InitFailureSkipsModel<L>(request: Request, init: Outcome<Option<L>>,
                                 p1: (L, Value) -> Outcome<Value>, p2: (L, Value) -> Outcome<Value>)
    requires !(init.Returned? && init.value.Some?)
    ensures ReviewAnalyzerTool(request, init, p1) == ReviewAnalyzerTool(request, init, p2)
    ensures ReviewAnalyzerTool(request, init, p1).Raised?
  {
  }
}
