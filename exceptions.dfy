/**
 * Python exceptions as the review services see them: the built-in exception
 * classes with their subclass relation, raised exception values, and the
 * outcome of a Python call (a returned value or a raised exception).
 */
module Exceptions {

  datatype Option<+T> = None | Some(value: T)

  /** The built-in exception classes that the services name or can meet. */
  datatype ExcClass =
    | BaseException | Exception
    | KeyboardInterrupt | SystemExit | GeneratorExit | CancelledError
    | AttributeError | TypeError | ValueError | UnicodeError
    | ArithmeticError | ZeroDivisionError
    | RuntimeError | NotImplementedError | RecursionError
    | LookupError | KeyError | IndexError
    | NameError | UnboundLocalError
    | OSError | TimeoutError | ConnectionError
    | BrokenPipeError | ConnectionAbortedError | ConnectionRefusedError | ConnectionResetError

  /** The direct base class of each built-in class (`BaseException` has none). */
  function Parent(c: ExcClass): Option<ExcClass>
  {
    match c
    case BaseException => None
    case Exception | KeyboardInterrupt | SystemExit | GeneratorExit | CancelledError => Some(BaseException)
    case AttributeError | TypeError | ValueError | RuntimeError | LookupError | NameError | OSError
       | ArithmeticError => Some(Exception)
    case UnicodeError => Some(ValueError)
    case ZeroDivisionError => Some(ArithmeticError)
    case NotImplementedError | RecursionError => Some(RuntimeError)
    case KeyError | IndexError => Some(LookupError)
    case UnboundLocalError => Some(NameError)
    case TimeoutError | ConnectionError => Some(OSError)
    case BrokenPipeError | ConnectionAbortedError | ConnectionRefusedError | ConnectionResetError => Some(ConnectionError)
  }

  /** `c` and its ancestors: the classes `d` with `issubclass(c, d)`. */
  function Ancestors(c: ExcClass): set<ExcClass>
  {
    match c
    case BaseException => {BaseException}
    case Exception | KeyboardInterrupt | SystemExit | GeneratorExit | CancelledError => {c, BaseException}
    case AttributeError | TypeError | ValueError | RuntimeError | LookupError | NameError | OSError
       | ArithmeticError => {c, Exception, BaseException}
    case UnicodeError => {c, ValueError, Exception, BaseException}
    case ZeroDivisionError => {c, ArithmeticError, Exception, BaseException}
    case NotImplementedError | RecursionError => {c, RuntimeError, Exception, BaseException}
    case KeyError | IndexError => {c, LookupError, Exception, BaseException}
    case UnboundLocalError => {c, NameError, Exception, BaseException}
    case TimeoutError | ConnectionError => {c, OSError, Exception, BaseException}
    case BrokenPipeError | ConnectionAbortedError | ConnectionRefusedError | ConnectionResetError =>
      {c, ConnectionError, OSError, Exception, BaseException}
  }

  /** `issubclass(c, d)` for built-in classes: `d` is `c` or one of its ancestors. */
  predicate IsSubclass(c: ExcClass, d: ExcClass)
  {
    d in Ancestors(c)
  }

  /** The ancestor sets follow the direct bases: a class's ancestors are itself and its base's. */
  lemma AncestorsFollowParent(c: ExcClass)
    ensures Ancestors(c) == {c} + (if Parent(c).Some? then Ancestors(Parent(c).value) else {})
  {
  }

  /** Every built-in exception class derives from `BaseException`. */
  lemma SubclassOfBase(c: ExcClass)
    ensures IsSubclass(c, BaseException)
  {
  }

  /** Distance from `BaseException` in the class tree. */
  function Depth(c: ExcClass): nat
  {
    match c
    case BaseException => 0
    case Exception | KeyboardInterrupt | SystemExit | GeneratorExit | CancelledError => 1
    case AttributeError | TypeError | ValueError | RuntimeError | LookupError | NameError | OSError
       | ArithmeticError => 2
    case ZeroDivisionError | UnicodeError | NotImplementedError | RecursionError | KeyError | IndexError
       | UnboundLocalError | TimeoutError | ConnectionError => 3
    case BrokenPipeError | ConnectionAbortedError | ConnectionRefusedError | ConnectionResetError => 4
  }

  /** A direct base is one step closer to `BaseException`. */
  lemma ParentIsShallower(c: ExcClass)
    requires Parent(c).Some?
    ensures Depth(Parent(c).value) < Depth(c)
  {
  }

  /** The ancestors of an ancestor are ancestors. */
  lemma {:induction false} AncestorsClosed(a: ExcClass, b: ExcClass)
    requires b in Ancestors(a)
    ensures Ancestors(b) <= Ancestors(a)
    decreases Depth(a)
  {
    AncestorsFollowParent(a);
    if a != b {
      ParentIsShallower(a);
      AncestorsClosed(Parent(a).value, b);
    }
  }

  /** `issubclass` is transitive. */
  lemma SubclassTransitive(a: ExcClass, b: ExcClass, c: ExcClass)
    requires IsSubclass(a, b) && IsSubclass(b, c)
    ensures IsSubclass(a, c)
  {
    AncestorsClosed(a, b);
  }

  /** The class name as Python prints it inside `str(type(e))`. */
  function ClassName(c: ExcClass): string
  {
    match c
    case BaseException => "BaseException"
    case Exception => "Exception"
    case KeyboardInterrupt => "KeyboardInterrupt"
    case SystemExit => "SystemExit"
    case GeneratorExit => "GeneratorExit"
    case CancelledError => "asyncio.exceptions.CancelledError"
    case AttributeError => "AttributeError"
    case TypeError => "TypeError"
    case ValueError => "ValueError"
    case UnicodeError => "UnicodeError"
    case ArithmeticError => "ArithmeticError"
    case ZeroDivisionError => "ZeroDivisionError"
    case RuntimeError => "RuntimeError"
    case NotImplementedError => "NotImplementedError"
    case RecursionError => "RecursionError"
    case LookupError => "LookupError"
    case KeyError => "KeyError"
    case IndexError => "IndexError"
    case NameError => "NameError"
    case UnboundLocalError => "UnboundLocalError"
    case OSError => "OSError"
    case TimeoutError => "TimeoutError"
    case ConnectionError => "ConnectionError"
    case BrokenPipeError => "BrokenPipeError"
    case ConnectionAbortedError => "ConnectionAbortedError"
    case ConnectionRefusedError => "ConnectionRefusedError"
    case ConnectionResetError => "ConnectionResetError"
  }

  /**
   * A raised exception. Its class may be a library class (from the OpenAI
   * client or LangChain, say): `bases` holds the built-in classes that class
   * derives from directly or through library classes, `typeRepr` is
   * `str(type(e))` (for example "<class 'openai.APIError'>") and `message` is
   * `str(e)`.
   */
  datatype Exc = Exc(bases: set<ExcClass>, typeRepr: string, message: string)

  /** An instance of the built-in class `c` itself. */
  function Builtin(c: ExcClass, message: string): (e: Exc)
    ensures e.bases == {c} && e.message == message
  {
    Exc({c}, "<class '" + ClassName(c) + "'>", message)
  }

  /** `isinstance(e, c)`, which is what `except c:` tests. */
  predicate IsInstance(e: Exc, c: ExcClass)
  {
    exists b :: b in e.bases && IsSubclass(b, c)
  }

  /** An instance of a built-in class is an instance of exactly its ancestors. */
  lemma BuiltinInstance(c: ExcClass, message: string, d: ExcClass)
    ensures IsInstance(Builtin(c, message), d) <==> IsSubclass(c, d)
  {
    SingleBaseInstance(Builtin(c, message), c, d);
  }

  /** An exception whose class has the single built-in base `c`. */
  lemma SingleBaseInstance(e: Exc, c: ExcClass, d: ExcClass)
    requires e.bases == {c}
    ensures IsInstance(e, d) <==> IsSubclass(c, d)
  {
    if IsSubclass(c, d) {
      assert c in e.bases;
    }
  }

  /**
   * The result of a Python call: the value it returned, or the exception it
   * raised. Usable with `:-`, which propagates the exception as Python does.
   */
  datatype Outcome<+T> = Returned(value: T) | Raised(exc: Exc)
  {
    predicate IsFailure() { Raised? }

    function PropagateFailure<U>(): Outcome<U>
      requires Raised?
    {
      Raised(exc)
    }

    function Extract(): T
      requires Returned?
    {
      value
    }
  }

  /**
   * Apply `f` to every element in order, as a list comprehension or a
   * sequential `batch` does: the list of results, or the first exception
   * raised, in which case no later element is processed.
   */
  function MapAll<A, B>(xs: seq<A>, f: A -> Outcome<B>): (r: Outcome<seq<B>>)
    ensures r.Returned? <==> forall i :: 0 <= i < |xs| ==> f(xs[i]).Returned?
    ensures r.Returned? ==> |r.value| == |xs| && forall i :: 0 <= i < |xs| ==> r.value[i] == f(xs[i]).value
    ensures r.Raised? ==> exists i :: 0 <= i < |xs| && f(xs[i]) == Raised(r.exc) && forall j :: 0 <= j < i ==> f(xs[j]).Returned?
  {
    if xs == [] then Returned([])
    else
      match f(xs[0])
      case Raised(e) => Raised(e)
      case Returned(y) =>
        match MapAll(xs[1..], f)
        case Raised(e) =>
          assert exists i :: 0 <= i < |xs[1..]| && f(xs[1..][i]) == Raised(e) && forall j :: 0 <= j < i ==> f(xs[1..][j]).Returned?;
          var i :| 0 <= i < |xs[1..]| && f(xs[1..][i]) == Raised(e) && forall j :: 0 <= j < i ==> f(xs[1..][j]).Returned?;
          assert f(xs[i + 1]) == Raised(e) && forall j :: 0 <= j < i + 1 ==> f(xs[j]).Returned?;
          Raised(e)
        case Returned(ys) => Returned([y] + ys)
  }

  /**
   * A loop that applies `f` to each element in turn, appending each result and
   * stopping at the first exception, which it passes on.
   */
  method MapEach<A, B>(xs: seq<A>, f: A -> Outcome<B>) returns (r: Outcome<seq<B>>)
    ensures r == MapAll(xs, f)
  {
    var ys: seq<B> := [];
    var i := 0;
    while i < |xs|
      invariant 0 <= i <= |xs|
      invariant MapAll(xs[..i], f) == Returned(ys)
    {
      var y := f(xs[i]);
      if y.Raised? {
        MapAllFirstFailure(xs, i, f);
        return Raised(y.exc);
      }
      MapAllSnoc(xs[..i], xs[i], f);
      assert xs[..i + 1] == xs[..i] + [xs[i]];
      ys := ys + [y.value];
      i := i + 1;
    }
    assert xs[..i] == xs;
    return Returned(ys);
  }

  /** Mapping over one more element appends its result. */
  lemma MapAllSnoc<A, B>(xs: seq<A>, x: A, f: A -> Outcome<B>)
    requires MapAll(xs, f).Returned? && f(x).Returned?
    ensures MapAll(xs + [x], f) == Returned(MapAll(xs, f).value + [f(x).value])
  {
    var all := xs + [x];
    forall i | 0 <= i < |all| ensures f(all[i]).Returned? {
      if i < |xs| { assert all[i] == xs[i]; }
    }
    var ys := MapAll(all, f).value;
    forall i | 0 <= i < |all| ensures ys[i] == (MapAll(xs, f).value + [f(x).value])[i] {
      if i < |xs| { assert all[i] == xs[i]; }
    }
    assert ys == MapAll(xs, f).value + [f(x).value];
  }

  /** When every element before `i` succeeds and `xs[i]` raises, the map raises that exception. */
  lemma MapAllFirstFailure<A, B>(xs: seq<A>, i: nat, f: A -> Outcome<B>)
    requires i < |xs| && MapAll(xs[..i], f).Returned? && f(xs[i]).Raised?
    ensures MapAll(xs, f) == Raised(f(xs[i]).exc)
  {
    forall j | 0 <= j < i ensures f(xs[j]).Returned? {
      assert xs[..i][j] == xs[j];
    }
    var r := MapAll(xs, f);
    var k :| 0 <= k < |xs| && f(xs[k]) == Raised(r.exc) && forall j :: 0 <= j < k ==> f(xs[j]).Returned?;
    assert k == i;
  }
}
