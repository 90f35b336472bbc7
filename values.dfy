/**
 * The Python objects an assertion compares, the exceptions a foreign call
 * may raise, and the library calls the modelled code makes but whose
 * source is not part of this model (they stay uninterpreted: every
 * operation takes them as a `Foreign` record).
 */
module PyValues {

  datatype Option<T> = None | Some(value: T)

  /**
   * A Python value, as far as the comparison explanations tell values apart:
   * `str`, `int`, `list`, `tuple`, `set`, `dict`, a function, or any other
   * object (identified by a tag).
   */
  datatype Value =
    | Str(s: string)
    | Int(i: int)
    | List(items: seq<Value>)
    | Tuple(items: seq<Value>)
    | Set(elems: set<Value>)
    | Dict(entries: map<Value, Value>)
    | Func(name: string)
    | Other(tag: string)

  /** `isinstance(x, basestring)` */
  predicate IsText(v: Value) { v.Str? }

  /** `isinstance(x, (list, tuple))` */
  predicate IsSequence(v: Value) { v.List? || v.Tuple? }

  /** `isinstance(x, set)` */
  predicate IsSet(v: Value) { v.Set? }

  /** `isinstance(x, dict)` */
  predicate IsDict(v: Value) { v.Dict? }

  /**
   * An exception escaping a call: `sysex` says whether it is one of the
   * system-exiting kinds `py.builtin._sysex` names (these are never
   * swallowed); `text` is what `str(py.code.ExceptionInfo())` renders.
   */
  datatype Exc = Exc(sysex: bool, text: string)

  /** A call either returns a value or raises an exception. */
  datatype Outcome<T> = Returned(value: T) | Raised(exc: Exc)

  /**
   * The library calls the comparison explanations make:
   * - `saferepr(v, Some(n))` is `py.io.saferepr(v, maxsize=n)`, and
   *   `saferepr(v, None)` the same call with its default size; it never raises;
   * - `repr(v)` is what `'%r' % v` produces, or the exception `__repr__` raises;
   * - `pformat(v)` is `pprint.pformat(v)`, or the exception it raises;
   * - `ndiff(a, b)` is the list `difflib.ndiff(a, b)` yields;
   * - `splitlines(s)` is `s.splitlines()`;
   * - `setOrder(s)` is the order in which `for x in s` visits a set.
   */
  datatype Foreign = Foreign(
    saferepr: (Value, Option<int>) -> string,
    repr: Value -> Outcome<string>,
    pformat: Value -> Outcome<string>,
    ndiff: (seq<string>, seq<string>) -> seq<string>,
    splitlines: string -> seq<string>,
    setOrder: set<Value> -> seq<Value>)

  /** `xs` lists every element of `s` exactly once */
  ghost predicate Enumerates(xs: seq<Value>, s: set<Value>) {
    && (forall i, j :: 0 <= i < j < |xs| ==> xs[i] != xs[j])
    && (forall x :: x in s <==> x in xs)
  }

  /** A duplicate-free listing of a set is as long as the set is large. */
  lemma {:induction false} EnumerationLength(xs: seq<Value>, s: set<Value>)
    requires Enumerates(xs, s)
    ensures |xs| == |s|
  {
    if xs != [] {
      var rest := xs[1..];
      assert Enumerates(rest, s - {xs[0]}) by {
        forall x ensures x in s - {xs[0]} <==> x in rest {
          if x in rest {
            var k :| 0 <= k < |rest| && rest[k] == x;
            assert xs[k + 1] == x;
          }
          if x in s - {xs[0]} {
            assert x in xs;
            var k :| 0 <= k < |xs| && xs[k] == x;
            assert k != 0;
            assert rest[k - 1] == x;
          }
        }
      }
      EnumerationLength(rest, s - {xs[0]});
    } else {
      assert forall x :: x !in s;
      assert s == {};
    }
  }
}
