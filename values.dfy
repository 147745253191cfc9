/**
 * The Python values the review services pass around: what `json.loads` and a
 * JSON output parser produce (None, booleans, integers, strings, lists, dicts
 * with string keys) plus tuples, with the Python semantics the services rely
 * on: truthiness, `v[key]`, iteration, and `str(v)` / `repr(v)`.
 */
module Values {
  import opened Exceptions
  import opened Text

  /** A Python value. A dict keeps its entries in insertion order. */
  datatype Value =
    | PyNone
    | PyBool(b: bool)
    | PyInt(i: int)
    | PyStr(s: string)
    | PyList(items: seq<Value>)
    | PyTuple(elems: seq<Value>)
    | PyDict(entries: seq<Entry>)

  datatype Entry = Entry(key: string, val: Value)

  /** A dict literal with one string value: `{key: text}`. */
  function StrDict(key: string, text: string): (d: Value)
    ensures d.PyDict? && |d.entries| == 1
  {
    PyDict([Entry(key, PyStr(text))])
  }

  /** `bool(v)`: None, False, 0 and empty containers are false. */
  predicate Truthy(v: Value)
  {
    match v
    case PyNone => false
    case PyBool(b) => b
    case PyInt(i) => i != 0
    case PyStr(s) => s != []
    case PyList(items) => items != []
    case PyTuple(elems) => elems != []
    case PyDict(entries) => entries != []
  }

  /** `type(v).__name__`. */
  function TypeName(v: Value): string
  {
    match v
    case PyNone => "NoneType"
    case PyBool(_) => "bool"
    case PyInt(_) => "int"
    case PyStr(_) => "str"
    case PyList(_) => "list"
    case PyTuple(_) => "tuple"
    case PyDict(_) => "dict"
  }

  /** The value stored under `key`: the first entry with that key. */
  function Lookup(entries: seq<Entry>, key: string): (r: Option<Value>)
    ensures r.Some? <==> exists i :: 0 <= i < |entries| && entries[i].key == key
    ensures r.Some? ==> exists i :: 0 <= i < |entries| && entries[i] == Entry(key, r.value)
  {
    if entries == [] then None
    else if entries[0].key == key then Some(entries[0].val)
    else
      var r := Lookup(entries[1..], key);
      assert forall i :: 1 <= i < |entries| ==> entries[i] == entries[1..][i - 1];
      r
  }

  /**
   * `v[key]` with a string key: the value of a dict, `KeyError` when a dict
   * lacks the key, `TypeError` for every other type.
   */
  function Subscript(v: Value, key: string): (r: Outcome<Value>)
    ensures v.PyDict? && Lookup(v.entries, key).Some? ==> r == Returned(Lookup(v.entries, key).value)
    ensures v.PyDict? && Lookup(v.entries, key).None? ==> r.Raised? && r.exc == Builtin(KeyError, StrRepr(key))
    ensures !v.PyDict? ==> r.Raised? && r.exc.bases == {TypeError}
  {
    match v
    case PyDict(entries) =>
      (match Lookup(entries, key)
       case Some(x) => Returned(x)
       case None => Raised(Builtin(KeyError, StrRepr(key))))
    case PyList(_) => Raised(Builtin(TypeError, "list indices must be integers or slices, not str"))
    case PyTuple(_) => Raised(Builtin(TypeError, "tuple indices must be integers or slices, not str"))
    case PyStr(_) => Raised(Builtin(TypeError, "string indices must be integers, not 'str'"))
    case _ => Raised(Builtin(TypeError, "'" + TypeName(v) + "' object is not subscriptable"))
  }

  /**
   * `for x in v`: the elements of a list or tuple, the one-character strings
   * of a string, the keys of a dict; `TypeError` for the other types.
   */
  function Iterate(v: Value): (r: Outcome<seq<Value>>)
    ensures v.PyList? ==> r == Returned(v.items)
    ensures v.PyTuple? ==> r == Returned(v.elems)
    ensures v.PyStr? ==> r.Returned? && |r.value| == |v.s|
    ensures v.PyDict? ==> r.Returned? && |r.value| == |v.entries|
    ensures (v.PyNone? || v.PyBool? || v.PyInt?) ==> r.Raised? && r.exc.bases == {TypeError}
  {
    match v
    case PyList(items) => Returned(items)
    case PyTuple(elems) => Returned(elems)
    case PyStr(s) => Returned(seq(|s|, i requires 0 <= i < |s| => PyStr([s[i]])))
    case PyDict(entries) => Returned(seq(|entries|, i requires 0 <= i < |entries| => PyStr(entries[i].key)))
    case _ => Raised(Builtin(TypeError, "'" + TypeName(v) + "' object is not iterable"))
  }

  /** The quote `repr` puts around a string: `"` only if it has `'` and no `"`. */
  function QuoteFor(s: string): (q: char)
    ensures q == '"' <==> ('\'' in s && '"' !in s)
    ensures q == '"' || q == '\''
  {
    if '\'' in s && '"' !in s then '"' else '\''
  }

  /** How `repr` writes one character of a string quoted with `q`. */
  function EscapeChar(c: char, q: char): (r: string)
    ensures '\n' !in r
  {
    if c == '\\' then "\\\\"
    else if c == '\n' then "\\n"
    else if c == '\r' then "\\r"
    else if c == '\t' then "\\t"
    else if c == q then ['\\', q]
    else [c]
  }

  function Escape(s: string, q: char): (r: string)
    ensures '\n' !in r
  {
    if s == [] then "" else EscapeChar(s[0], q) + Escape(s[1..], q)
  }

  /** `repr(s)` for a string `s`: quoted, with backslash escapes. */
  function StrRepr(s: string): (r: string)
    ensures |r| >= 2 && r[0] == r[|r| - 1] == QuoteFor(s)
    ensures '\n' !in r
  {
    var q := QuoteFor(s);
    [q] + Escape(s, q) + [q]
  }

  /** A character `repr` writes as itself inside single quotes. */
  predicate PlainChar(c: char)
  {
    c != '\\' && c != '\n' && c != '\r' && c != '\t' && c != '\''
  }

  /** Plain characters need no escape. */
  lemma {:induction false} EscapePlain(s: string)
    requires forall i :: 0 <= i < |s| ==> PlainChar(s[i])
    ensures Escape(s, '\'') == s
    decreases |s|
  {
    if s != [] {
      EscapePlain(s[1..]);
    }
  }

  /** A string of plain characters is written between single quotes, unchanged. */
  lemma PlainRepr(s: string)
    requires forall i :: 0 <= i < |s| ==> PlainChar(s[i])
    ensures StrRepr(s) == "'" + s + "'"
  {
    EscapePlain(s);
  }

  /** `repr(v)`. */
  function Repr(v: Value): string
    decreases v, 1
  {
    match v
    case PyNone => "None"
    case PyBool(b) => if b then "True" else "False"
    case PyInt(i) => IntToString(i)
    case PyStr(s) => StrRepr(s)
    case PyList(items) => "[" + Join(", ", ReprAll(v, items)) + "]"
    case PyTuple(elems) =>
      if |elems| == 1 then "(" + ReprAll(v, elems)[0] + ",)"
      else "(" + Join(", ", ReprAll(v, elems)) + ")"
    case PyDict(entries) => "{" + Join(", ", ReprEntries(v, entries)) + "}"
  }

  /** The reprs of the elements `vs` of the container `parent`. */
  function ReprAll(parent: Value, vs: seq<Value>): (r: seq<string>)
    requires forall x :: x in vs ==> x < parent
    ensures |r| == |vs|
    decreases parent, 0, |vs|
  {
    if vs == [] then []
    else
      assert vs[0] in vs && forall x :: x in vs[1..] ==> x in vs;
      [Repr(vs[0])] + ReprAll(parent, vs[1..])
  }

  /** The `'key': repr(value)` items of the dict `parent`. */
  function ReprEntries(parent: Value, es: seq<Entry>): (r: seq<string>)
    requires forall e :: e in es ==> e.val < parent
    ensures |r| == |es|
    decreases parent, 0, |es|
  {
    if es == [] then []
    else
      assert es[0] in es;
      [StrRepr(es[0].key) + ": " + Repr(es[0].val)] + ReprEntries(parent, es[1..])
  }

  /** `str(v)`: a string is itself, every other value is its `repr`. */
  function ToStr(v: Value): (r: string)
    ensures v.PyStr? ==> r == v.s
  {
    if v.PyStr? then v.s else Repr(v)
  }
}
