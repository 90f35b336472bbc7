/**
 * The collection and parametrisation bookkeeping of `pytest/plugin/python.py`:
 * how `Metafunc.addcall` names and records calls, how a test generator's
 * yielded tests are unpacked and named, how a node's dotted module path is
 * assembled, how parametrised test names are built and stripped back, which
 * names a collector considers, and the small argument and scope rules.
 *
 * Python objects are `Value`s; introspection (`inspect`, `getattr`,
 * `callable`) and the hooks a collector calls are parameters.
 */
module PyCollect {
  import opened PyStr
  import opened PyValues

  /** The exceptions the modelled code raises, with what distinguishes each. */
  datatype Error =
    | IndexError                    // `obj[0]` on an empty tuple or list
    | NonCallable(call: Value)      // TypeError: a generator yielded a non-callable test
    | NonUniqueName(name: string)   // ValueError: a generator yielded two tests of one name
    | IdIsNone                      // ValueError: `addcall(id=None)`
    | DuplicateId(id: string)       // ValueError: `addcall` with an id already used
    | UnknownScope(scope: string)   // ValueError: `_getscopeitem` with an unknown scope
    | NotAPyModule(name: string)    // AssertionError: a module node whose name lacks ".py"

  /** The Python exception class each error is raised as. */
  function ExceptionClass(e: Error): string {
    match e
    case IndexError => "IndexError"
    case NonCallable(_) => "TypeError"
    case NotAPyModule(_) => "AssertionError"
    case _ => "ValueError"
  }

  datatype Result<T> = Ok(value: T) | Err(error: Error)

  /* ---------------------------------------------------------------------
   * Collection nodes
   * ------------------------------------------------------------------- */

  /**
   * A node of the collection tree, as far as paths and scopes tell them
   * apart: a test module (its file name), a class, the instance node a
   * class collects, a test function or a generator, or any other
   * collector above the modules (directories, the session).
   */
  datatype Node =
    | Module(name: string)
    | Class(name: string)
    | Instance
    | Function(name: string)
    | Generator(name: string)
    | Other(name: string)

  /** `node.name`; the instance node is always named "()" */
  function NodeName(n: Node): string {
    if n.Instance? then "()" else n.name
  }

  /* ---------------------------------------------------------------------
   * funcnamefilter / classnamefilter and the default item choice
   * ------------------------------------------------------------------- */

  /** `funcnamefilter`: `name.startswith('test')` */
  predicate FuncNameFilter(name: string) {
    StartsWith(name, "test")
  }

  /** `classnamefilter`: `name.startswith('Test')` */
  predicate ClassNameFilter(name: string) {
    StartsWith(name, "Test")
  }

  /** what `inspect` and `getattr` report about a collected object */
  datatype ObjInfo = ObjInfo(isClass: bool, hasInit: bool, isCallable: bool, isGenerator: bool)

  /** What the default `pytest_pycollect_makeitem` makes of a name. */
  datatype ItemKind = ClassItem | GeneratorItem | FunctionItems | NoItem

  /** `_istestclasscandidate`: a class named like a test class, without its own `__init__` */
  predicate IsTestClassCandidate(name: string, info: ObjInfo) {
    ClassNameFilter(name) && info.isClass && !info.hasInit
  }

  /** the branches of the default `pytest_pycollect_makeitem`, when no plugin made an item */
  function DefaultItemKind(name: string, info: ObjInfo): ItemKind {
    if IsTestClassCandidate(name, info) then ClassItem
    else if FuncNameFilter(name) && info.isCallable then
      (if info.isGenerator then GeneratorItem else FunctionItems)
    else NoItem
  }

  /**
   * The default item choice only makes items for names starting with
   * "Test" (classes) or "test" (functions and generators), and never one
   * for a name starting with '_'.
   */
  lemma DefaultItemKindNames(name: string, info: ObjInfo)
    ensures DefaultItemKind(name, info) == ClassItem ==> StartsWith(name, "Test") && info.isClass
    ensures DefaultItemKind(name, info) in {GeneratorItem, FunctionItems} ==>
      StartsWith(name, "test") && info.isCallable
    ensures |name| > 0 && name[0] == '_' ==> DefaultItemKind(name, info) == NoItem
  {
    if |name| > 0 && name[0] == '_' {
      assert !StartsWith(name, "Test") by {
        assert |name| < 4 || name[..4][0] == '_';
      }
      assert !StartsWith(name, "test") by {
        assert |name| < 4 || name[..4][0] == '_';
      }
    }
  }

  /* ---------------------------------------------------------------------
   * getfuncargnames
   * ------------------------------------------------------------------- */

  /**
   * `getfuncargnames`: the argument names of a function less the bound
   * `self` of a method and less the trailing arguments that have defaults
   * (`argnames[startindex:-numdefaults]`, or `argnames[startindex:]`
   * without defaults).
   */
  function GetFuncArgNames(argnames: seq<string>, isMethod: bool, numDefaults: nat): (r: seq<string>)
  {
    var startIndex := if isMethod then 1 else 0;
    if numDefaults != 0 then Slice(argnames, startIndex, -(numDefaults as int))
    else SliceFrom(argnames, startIndex)
  }

  /**
   * The funcarg names are the arguments strictly between the bound `self`
   * (for a method) and the defaulted tail, and none when those overlap.
   */
  lemma GetFuncArgNamesSpec(argnames: seq<string>, isMethod: bool, numDefaults: nat)
    ensures var s := if isMethod then 1 else 0;
      && (s + numDefaults <= |argnames| ==>
            GetFuncArgNames(argnames, isMethod, numDefaults) == argnames[s..|argnames| - numDefaults])
      && (s + numDefaults > |argnames| ==> GetFuncArgNames(argnames, isMethod, numDefaults) == [])
  {
    var s := if isMethod then 1 else 0;
    var n := |argnames|;
    if numDefaults != 0 {
      var hi := SliceBound(n, -(numDefaults as int));
      assert numDefaults <= n ==> hi == n - numDefaults;
      assert numDefaults > n ==> hi == 0;
    } else if s <= n {
      assert argnames[s..n] == argnames[s..];
    }
  }

  /* ---------------------------------------------------------------------
   * FuncargRequest._getscopeitem
   * ------------------------------------------------------------------- */

  /**
   * The innermost module among the ancestors of a node (listed outermost
   * first), as `getparent(Module)` finds it.
   */
  function ParentModule(parents: seq<Node>): (r: Option<Node>)
    ensures r.Some? ==> r.value.Module?
    ensures r.Some? ==>
      exists k :: 0 <= k < |parents| && parents[k] == r.value && (forall j :: k < j < |parents| ==> !parents[j].Module?)
    ensures r.None? ==> forall k :: 0 <= k < |parents| ==> !parents[k].Module?
  {
    if parents == [] then None
    else if parents[|parents| - 1].Module? then Some(parents[|parents| - 1])
    else
      var init := parents[..|parents| - 1];
      assert parents == init + [parents[|parents| - 1]];
      ParentModule(init)
  }

  /**
   * `_getscopeitem`: the node a finalizer of the given scope belongs to —
   * the test item itself, its module, or none for the session; any other
   * scope is an error.
   */
  function GetScopeItem(scope: string, item: Node, parents: seq<Node>): (r: Result<Option<Node>>)
    ensures r.Err? <==> scope !in {"function", "module", "session"}
    ensures r.Err? ==> r.error == UnknownScope(scope) && ExceptionClass(r.error) == "ValueError"
    ensures scope == "function" ==> r == Ok(Some(item))
    ensures scope == "session" ==> r == Ok(None)
    ensures scope == "module" ==> r == Ok(ParentModule(parents))
    ensures scope == "module" && r.value.Some? ==> r.value.value.Module?
  {
    if scope == "function" then Ok(Some(item))
    else if scope == "module" then Ok(ParentModule(parents))
    else if scope == "session" then Ok(None)
    else Err(UnknownScope(scope))
  }

  /* ---------------------------------------------------------------------
   * CallSpec and Metafunc.addcall
   * ------------------------------------------------------------------- */

  /**
   * A recorded call: the keyword arguments (`None` when not given), its id
   * and the indirect parameter (`None` when not given).
   */
  datatype CallSpec = CallSpec(funcargs: Option<map<string, Value>>, id: string, param: Option<Value>)

  /** the `id` argument of `addcall`: left out, `None`, or given (already as its `str`) */
  datatype IdArg = Omitted | IdNone | Given(text: string)

  /** the ids of a list of calls */
  function IdsOf(calls: seq<CallSpec>): set<string> {
    set k | 0 <= k < |calls| :: calls[k].id
  }

  lemma IdsOfAppend(calls: seq<CallSpec>, c: CallSpec)
    ensures IdsOf(calls + [c]) == IdsOf(calls) + {c.id}
  {
    var all := calls + [c];
    forall x | x in IdsOf(all) ensures x in IdsOf(calls) + {c.id} {
      var k :| 0 <= k < |all| && all[k].id == x;
      if k < |calls| { assert calls[k] == all[k]; }
    }
    forall x | x in IdsOf(calls) ensures x in IdsOf(all) {
      var k :| 0 <= k < |calls| && calls[k].id == x;
      assert all[k] == calls[k];
    }
    assert all[|calls|] == c;
  }

  /** the id `addcall` records for a call made when `count` calls exist */
  function ResolveId(id: IdArg, count: nat): Result<string> {
    match id
    case IdNone => Err(IdIsNone)
    case Omitted => Ok(NatToString(count))
    case Given(s) => Ok(s)
  }

  /**
   * Calls added without ids never clash: if every earlier call took its
   * default id, the next default id is new.
   */
  lemma DefaultIdsFresh(calls: seq<CallSpec>)
    requires forall k :: 0 <= k < |calls| ==> calls[k].id == NatToString(k)
    ensures ResolveId(Omitted, |calls|).Ok?
    ensures ResolveId(Omitted, |calls|).value !in IdsOf(calls)
  {
    if NatToString(|calls|) in IdsOf(calls) {
      var k :| 0 <= k < |calls| && calls[k].id == NatToString(|calls|);
      NatToStringInjective(k, |calls|);
    }
  }

  /**
   * The parametrisation state of one test function: the recorded calls
   * and the set of their ids.
   */
  class Metafunc {
    const funcargnames: seq<string>
    var calls: seq<CallSpec>
    var ids: set<string>

    /** the ids of the calls are distinct, and are exactly the recorded id set */
    ghost predicate Valid()
      reads this
    {
      && (forall i, j :: 0 <= i < j < |calls| ==> calls[i].id != calls[j].id)
      && ids == IdsOf(calls)
    }

    /** `Metafunc(function)`: no calls yet; the funcarg names come from `getfuncargnames` */
    constructor (argnames: seq<string>, isMethod: bool, numDefaults: nat)
      ensures Valid()
      ensures funcargnames == GetFuncArgNames(argnames, isMethod, numDefaults)
      ensures calls == [] && ids == {}
    {
      funcargnames := GetFuncArgNames(argnames, isMethod, numDefaults);
      calls := [];
      ids := {};
    }

    /**
     * `addcall`: `id=None` is refused; a missing id defaults to the number
     * of calls so far; an id already recorded is refused; otherwise the id
     * is recorded and exactly one call is appended.
     */
    method AddCall(funcargs: Option<map<string, Value>>, id: IdArg, param: Option<Value>)
      returns (err: Option<Error>)
      requires Valid()
      modifies this
      ensures Valid()
      ensures id == IdNone ==> err == Some(IdIsNone)
      ensures ResolveId(id, old(|calls|)).Ok? && ResolveId(id, old(|calls|)).value in old(ids) ==>
        err == Some(DuplicateId(ResolveId(id, old(|calls|)).value))
      ensures err.Some? ==> calls == old(calls) && ids == old(ids)
      ensures err.None? <==> ResolveId(id, old(|calls|)).Ok? && ResolveId(id, old(|calls|)).value !in old(ids)
      ensures err.None? ==>
        var s := ResolveId(id, old(|calls|)).value;
        && calls == old(calls) + [CallSpec(funcargs, s, param)]
        && ids == old(ids) + {s}
    {
      if id == IdNone {
        return Some(IdIsNone);
      }
      var s := if id.Omitted? then NatToString(|calls|) else id.text;
      if s in ids {
        return Some(DuplicateId(s));
      }
      ids := ids + {s};
      calls := calls + [CallSpec(funcargs, s, param)];
      IdsOfAppend(old(calls), CallSpec(funcargs, s, param));
      return None;
    }
  }

  /* ---------------------------------------------------------------------
   * Generator.getcallargs and Generator.collect
   * ------------------------------------------------------------------- */

  /** a yielded value as the tuple or list `getcallargs` unpacks: anything else becomes a 1-tuple */
  function AsCallTuple(x: Value): (r: Value)
    ensures r.Tuple? || r.List?
  {
    if x.Tuple? || x.List? then x else Tuple([x])
  }

  /** `obj[1:]`: a slice of a tuple is a tuple, of a list a list */
  function Rest(obj: Value, k: nat): (r: Value)
    requires obj.Tuple? || obj.List?
    requires k <= |obj.items|
    ensures r.Tuple? || r.List?
  {
    if obj.Tuple? then Tuple(obj.items[k..]) else List(obj.items[k..])
  }

  /** what `getcallargs` returns: the explicit name (if any), the test callable and its arguments */
  datatype CallArgs = CallArgs(name: Option<string>, call: Value, args: Value)

  /**
   * `getcallargs`: a leading string is the test's explicit name; the next
   * element is the callable and the rest its arguments; an element missing
   * where `obj[0]` reads one raises `IndexError`.
   */
  function GetCallArgs(x: Value): Result<CallArgs> {
    var obj := AsCallTuple(x);
    if |obj.items| == 0 then Err(IndexError)
    else if obj.items[0].Str? then
      var rest := Rest(obj, 1);
      if |rest.items| == 0 then Err(IndexError)
      else Ok(CallArgs(Some(obj.items[0].s), rest.items[0], Rest(rest, 1)))
    else Ok(CallArgs(None, obj.items[0], Rest(obj, 1)))
  }

  /**
   * `getcallargs` takes the yielded value apart without losing anything:
   * the name (as a string), the callable and the arguments put back
   * together give the tuple or list it unpacked, the arguments keep its
   * kind, and it fails exactly when there is no element left for the
   * callable.
   */
  lemma GetCallArgsSpec(x: Value)
    ensures var obj := AsCallTuple(x);
      GetCallArgs(x).Err? <==> |obj.items| == 0 || (obj.items[0].Str? && |obj.items| == 1)
    ensures var obj := AsCallTuple(x);
      GetCallArgs(x).Ok? ==>
        var c := GetCallArgs(x).value;
        && (c.name.Some? <==> obj.items[0].Str?)
        && obj.items == (if c.name.Some? then [Str(c.name.value)] else []) + [c.call] + c.args.items
        && c.args.Tuple? == obj.Tuple?
    ensures !(x.Tuple? || x.List?) && !x.Str? ==> GetCallArgs(x) == Ok(CallArgs(None, x, Tuple([])))
    ensures x.Str? ==> GetCallArgs(x) == Err(IndexError)
  {
    var obj := AsCallTuple(x);
    if GetCallArgs(x).Ok? {
      var c := GetCallArgs(x).value;
      if obj.items[0].Str? {
        assert obj.items == [obj.items[0]] + [obj.items[1]] + obj.items[2..];
      } else {
        assert obj.items == [obj.items[0]] + obj.items[1..];
      }
    }
  }

  /** `"[%d]" % i` for an unnamed yielded test, `"['%s']" % name` for a named one */
  function GenName(i: nat, name: Option<string>): string {
    if name.None? then "[" + NatToString(i) + "]" else "['" + name.value + "']"
  }

  /** A numbered name has a digit where a named one has a quote. */
  lemma NumberNotQuoted(i: nat, j: nat, name: string)
    ensures GenName(i, None) != GenName(j, Some(name))
  {
    assert GenName(i, None)[1] == NatToString(i)[0];
    assert GenName(j, Some(name))[1] == '\'';
  }

  /**
   * Two yielded tests can share a generated name only when both were
   * named explicitly, with the same name: unnamed tests are numbered by
   * their distinct positions, and a number never looks like a quoted name.
   */
  lemma GenNamesCollide(i: nat, a: Option<string>, j: nat, b: Option<string>)
    requires GenName(i, a) == GenName(j, b)
    ensures a == b
    ensures a.None? ==> i == j
  {
    if a.None? && b.Some? {
      NumberNotQuoted(i, j, b.value);
    } else if a.Some? && b.None? {
      NumberNotQuoted(j, i, a.value);
    }
    var s := GenName(i, a);
    if a.None? && b.None? {
      var si, sj := NatToString(i), NatToString(j);
      assert si == s[1..|s| - 1] == sj;
      NatToStringInjective(i, j);
    } else if a.Some? && b.Some? {
      assert a.value == s[2..|s| - 2] == b.value;
    }
  }

  /** the explicit name `getcallargs` finds in a yielded value, if it unpacks */
  function ExplicitName(x: Value): Option<string> {
    if GetCallArgs(x).Ok? then GetCallArgs(x).value.name else None
  }

  /** a collected yielded test: `Function(name, self, args=args, callobj=call)` */
  datatype YieldedTest = YieldedTest(name: string, call: Value, args: Value)

  /** the loop state of `Generator.collect`: the names seen and the tests made */
  datatype GenState = GenState(seen: set<string>, tests: seq<YieldedTest>)

  /** one iteration of `Generator.collect` on the `i`-th yielded value */
  function GenStep(st: Result<GenState>, i: nat, x: Value, callable: Value -> bool): Result<GenState> {
    match st
    case Err(e) => st
    case Ok(s) =>
      match GetCallArgs(x)
      case Err(e) => Err(e)
      case Ok(c) =>
        if !callable(c.call) then Err(NonCallable(c.call))
        else
          var name := GenName(i, c.name);
          if name in s.seen then Err(NonUniqueName(name))
          else Ok(GenState(s.seen + {name}, s.tests + [YieldedTest(name, c.call, c.args)]))
  }

  /** the state after `Generator.collect` has gone through `xs` */
  function GenScan(xs: seq<Value>, callable: Value -> bool): Result<GenState> {
    if xs == [] then Ok(GenState({}, []))
    else GenStep(GenScan(xs[..|xs| - 1], callable), |xs| - 1, xs[|xs| - 1], callable)
  }

  /** What `Generator.collect` returns for the yielded values `xs`, or the error it raises. */
  function GenCollect(xs: seq<Value>, callable: Value -> bool): Result<seq<YieldedTest>> {
    match GenScan(xs, callable)
    case Err(e) => Err(e)
    case Ok(s) => Ok(s.tests)
  }

  /** the generated names of a list of tests */
  function TestNames(tests: seq<YieldedTest>): set<string> {
    set k | 0 <= k < |tests| :: tests[k].name
  }

  lemma TestNamesAppend(tests: seq<YieldedTest>, t: YieldedTest)
    ensures TestNames(tests + [t]) == TestNames(tests) + {t.name}
  {
    var all := tests + [t];
    forall x | x in TestNames(all) ensures x in TestNames(tests) + {t.name} {
      var k :| 0 <= k < |all| && all[k].name == x;
      if k < |tests| { assert all[k] == tests[k]; }
    }
    forall x | x in TestNames(tests) ensures x in TestNames(all) {
      var k :| 0 <= k < |tests| && tests[k].name == x;
      assert all[k] == tests[k];
    }
    assert all[|tests|] == t;
  }

  /** the test collection makes of the `k`-th yielded value, when it unpacks */
  function TestFor(k: nat, x: Value): YieldedTest
    requires GetCallArgs(x).Ok?
  {
    var c := GetCallArgs(x).value;
    YieldedTest(GenName(k, c.name), c.call, c.args)
  }

  /** One successful step records the test for the `n`-th value under a fresh name. */
  lemma GenStepOk(p: GenState, n: nat, x: Value, callable: Value -> bool)
    requires GenStep(Ok(p), n, x, callable).Ok?
    ensures GetCallArgs(x).Ok? && callable(GetCallArgs(x).value.call)
    ensures TestFor(n, x).name !in p.seen
    ensures GenStep(Ok(p), n, x, callable).value
      == GenState(p.seen + {TestFor(n, x).name}, p.tests + [TestFor(n, x)])
  {
  }

  /** the unpacking of the last value, when the scan before it succeeded */
  lemma GenScanLast(xs: seq<Value>, callable: Value -> bool)
    requires xs != [] && GenScan(xs[..|xs| - 1], callable).Ok?
    ensures GenScan(xs, callable) == GenStep(Ok(GenScan(xs[..|xs| - 1], callable).value), |xs| - 1, xs[|xs| - 1], callable)
  {
  }

  /**
   * Without an error, collection makes one test per yielded value, in
   * order, named after its position or its explicit name, with the
   * callable and arguments `getcallargs` found; the names are distinct
   * and are the names seen.
   */
  lemma {:induction false} GenScanSpec(xs: seq<Value>, callable: Value -> bool)
    requires GenScan(xs, callable).Ok?
    ensures var s := GenScan(xs, callable).value;
      && |s.tests| == |xs|
      && s.seen == TestNames(s.tests)
      && (forall i, j :: 0 <= i < j < |s.tests| ==> s.tests[i].name != s.tests[j].name)
    ensures var s := GenScan(xs, callable).value;
      forall k :: 0 <= k < |xs| ==>
        && GetCallArgs(xs[k]).Ok?
        && callable(GetCallArgs(xs[k]).value.call)
        && s.tests[k] == TestFor(k, xs[k])
  {
    if xs != [] {
      var n := |xs| - 1;
      var init := xs[..n];
      assert GenScan(init, callable).Ok?;
      GenScanSpec(init, callable);
      var p := GenScan(init, callable).value;
      GenScanLast(xs, callable);
      GenStepOk(p, n, xs[n], callable);
      RecordFresh(p, TestFor(n, xs[n]));
    }
    forall k | 0 <= k < |xs|
      ensures GetCallArgs(xs[k]).Ok? && callable(GetCallArgs(xs[k]).value.call)
      ensures GenScan(xs, callable).value.tests[k] == TestFor(k, xs[k])
    {
      GenScanAt(xs, k, callable);
    }
  }

  /** the `k`-th test of a successful collection, one position at a time */
  lemma GenScanAt(xs: seq<Value>, k: nat, callable: Value -> bool)
    requires GenScan(xs, callable).Ok? && k < |xs|
    ensures GetCallArgs(xs[k]).Ok? && callable(GetCallArgs(xs[k]).value.call)
    ensures |GenScan(xs, callable).value.tests| == |xs|
    ensures GenScan(xs, callable).value.tests[k] == TestFor(k, xs[k])
  {
    var pre := xs[..k + 1];
    GenScanPrefix(xs, k + 1, callable);
    GenScanNewest(pre, callable);
    assert pre[k] == xs[k];
  }

  /** Collecting a prefix of the yielded values makes the first tests of the whole collection. */
  lemma {:induction false} GenScanPrefix(xs: seq<Value>, m: nat, callable: Value -> bool)
    requires GenScan(xs, callable).Ok? && m <= |xs|
    ensures GenScan(xs[..m], callable).Ok?
    ensures |GenScan(xs, callable).value.tests| == |xs|
    ensures GenScan(xs[..m], callable).value.tests == GenScan(xs, callable).value.tests[..m]
  {
    GenScanLength(xs, callable);
    if m == |xs| {
      assert xs[..m] == xs;
    } else {
      var init := xs[..|xs| - 1];
      GenScanDropLast(xs, callable);
      GenScanPrefix(init, m, callable);
      assert init[..m] == xs[..m];
    }
  }

  /** Without its last value, a successful collection makes the same tests but the last. */
  lemma GenScanDropLast(xs: seq<Value>, callable: Value -> bool)
    requires GenScan(xs, callable).Ok? && xs != []
    ensures GenScan(xs[..|xs| - 1], callable).Ok?
    ensures |GenScan(xs, callable).value.tests| == |xs|
    ensures GenScan(xs[..|xs| - 1], callable).value.tests == GenScan(xs, callable).value.tests[..|xs| - 1]
  {
    var init := xs[..|xs| - 1];
    assert GenScan(init, callable).Ok?;
    GenScanLength(xs, callable);
    GenScanLength(init, callable);
    var p := GenScan(init, callable).value;
    GenScanLast(xs, callable);
    GenStepOk(p, |xs| - 1, xs[|xs| - 1], callable);
    assert (p.tests + [TestFor(|xs| - 1, xs[|xs| - 1])])[..|p.tests|] == p.tests;
  }

  /** The last value of a successful collection unpacks to a callable test, put last. */
  lemma GenScanNewest(xs: seq<Value>, callable: Value -> bool)
    requires GenScan(xs, callable).Ok? && xs != []
    ensures GetCallArgs(xs[|xs| - 1]).Ok? && callable(GetCallArgs(xs[|xs| - 1]).value.call)
    ensures |GenScan(xs, callable).value.tests| == |xs|
    ensures GenScan(xs, callable).value.tests[|xs| - 1] == TestFor(|xs| - 1, xs[|xs| - 1])
  {
    var init := xs[..|xs| - 1];
    assert GenScan(init, callable).Ok?;
    GenScanLength(init, callable);
    GenScanLast(xs, callable);
    GenStepOk(GenScan(init, callable).value, |xs| - 1, xs[|xs| - 1], callable);
  }

  /** A successful collection makes one test per yielded value. */
  lemma {:induction false} GenScanLength(xs: seq<Value>, callable: Value -> bool)
    requires GenScan(xs, callable).Ok?
    ensures |GenScan(xs, callable).value.tests| == |xs|
  {
    if xs != [] {
      var init := xs[..|xs| - 1];
      assert GenScan(init, callable).Ok?;
      GenScanLength(init, callable);
      GenScanLast(xs, callable);
      GenStepOk(GenScan(init, callable).value, |xs| - 1, xs[|xs| - 1], callable);
    }
  }

  /** Recording a test under a name not seen keeps the names seen distinct and equal to the tests' names. */
  lemma RecordFresh(p: GenState, t: YieldedTest)
    requires p.seen == TestNames(p.tests)
    requires forall i, j :: 0 <= i < j < |p.tests| ==> p.tests[i].name != p.tests[j].name
    requires t.name !in p.seen
    ensures var tests := p.tests + [t];
      && p.seen + {t.name} == TestNames(tests)
      && (forall i, j :: 0 <= i < j < |tests| ==> tests[i].name != tests[j].name)
      && (forall k :: 0 <= k < |p.tests| ==> tests[k] == p.tests[k])
      && tests[|p.tests|] == t
  {
    TestNamesAppend(p.tests, t);
    var tests := p.tests + [t];
    forall i, j | 0 <= i < j < |tests| ensures tests[i].name != tests[j].name {
      if j == |p.tests| {
        assert tests[i] == p.tests[i];
        assert p.tests[i].name in TestNames(p.tests);
      }
    }
  }

  /**
   * Collection fails with a non-unique name only when two yielded values
   * carry the same explicit name.
   */
  lemma {:induction false} GenNonUniqueOnlyNamed(xs: seq<Value>, callable: Value -> bool)
    requires GenCollect(xs, callable).Err? && GenCollect(xs, callable).error.NonUniqueName?
    ensures exists i, j :: 0 <= i < j < |xs| && ExplicitName(xs[i]).Some? && ExplicitName(xs[i]) == ExplicitName(xs[j])
  {
    var n := |xs| - 1;
    var init := xs[..n];
    assert xs != [];
    if GenScan(init, callable).Err? {
      assert GenCollect(init, callable) == GenCollect(xs, callable);
      GenNonUniqueOnlyNamed(init, callable);
      var i, j :| 0 <= i < j < |init| && ExplicitName(init[i]).Some? && ExplicitName(init[i]) == ExplicitName(init[j]);
      assert init[i] == xs[i] && init[j] == xs[j];
    } else {
      GenScanLast(xs, callable);
      var i := RepeatedName(init, xs[n], callable);
      assert init[i] == xs[i];
    }
  }

  /**
   * When the value after a successful scan repeats a name, an earlier
   * value carries the same explicit name.
   */
  lemma RepeatedName(init: seq<Value>, x: Value, callable: Value -> bool) returns (i: nat)
    requires GenScan(init, callable).Ok?
    requires var st := GenStep(GenScan(init, callable), |init|, x, callable); st.Err? && st.error.NonUniqueName?
    ensures i < |init| && ExplicitName(init[i]).Some? && ExplicitName(init[i]) == ExplicitName(x)
  {
    var p := GenScan(init, callable).value;
    GenStepRepeats(p, |init|, x, callable);
    GenScanSpec(init, callable);
    var name := TestFor(|init|, x).name;
    assert name in TestNames(p.tests);
    i :| 0 <= i < |p.tests| && p.tests[i].name == name;
    GenScanAt(init, i, callable);
    GenNamesCollide(i, GetCallArgs(init[i]).value.name, |init|, GetCallArgs(x).value.name);
  }

  /** A step that fails with a non-unique name met a value that unpacks to a name already seen. */
  lemma GenStepRepeats(p: GenState, n: nat, x: Value, callable: Value -> bool)
    requires GenStep(Ok(p), n, x, callable).Err? && GenStep(Ok(p), n, x, callable).error.NonUniqueName?
    ensures GetCallArgs(x).Ok? && TestFor(n, x).name in p.seen
  {
  }

  /**
   * `Generator.collect`: unpack each yielded value, refuse a non-callable
   * test and a repeated name, and make one test per value.
   */
  method CollectGenerated(xs: seq<Value>, callable: Value -> bool) returns (r: Result<seq<YieldedTest>>)
    ensures r == GenCollect(xs, callable)
  {
    var l := [];
    var seen := {};
    var i := 0;
    while i < |xs|
      invariant 0 <= i <= |xs|
      invariant GenScan(xs[..i], callable) == Ok(GenState(seen, l))
    {
      assert xs[..i + 1][..i] == xs[..i];
      var x := xs[i];
      var ca := GetCallArgs(x);
      if ca.Err? {
        GenScanErrStays(xs, i + 1, callable);
        return Err(ca.error);
      }
      var name, call, args := ca.value.name, ca.value.call, ca.value.args;
      if !callable(call) {
        GenScanErrStays(xs, i + 1, callable);
        return Err(NonCallable(call));
      }
      var testName := if name.None? then "[" + NatToString(i) + "]" else "['" + name.value + "']";
      if testName in seen {
        GenScanErrStays(xs, i + 1, callable);
        return Err(NonUniqueName(testName));
      }
      seen := seen + {testName};
      l := l + [YieldedTest(testName, call, args)];
      i := i + 1;
    }
    assert xs[..i] == xs;
    r := Ok(l);
  }

  /** Once collection has failed, later yielded values change nothing. */
  lemma {:induction false} GenScanErrStays(xs: seq<Value>, k: nat, callable: Value -> bool)
    requires k <= |xs|
    requires GenScan(xs[..k], callable).Err?
    ensures GenScan(xs, callable) == GenScan(xs[..k], callable)
    decreases |xs| - k
  {
    if k < |xs| {
      assert xs[..k + 1][..k] == xs[..k];
      GenScanErrStays(xs, k + 1, callable);
    } else {
      assert xs[..k] == xs;
    }
  }

  /* ---------------------------------------------------------------------
   * PyobjMixin.getmodpath
   * ------------------------------------------------------------------- */

  /** `name[:-3]` of a module file name ending in ".py" */
  function ModuleStem(name: string): string
    requires EndsWith(name, ".py")
  {
    name[..|name| - 3]
  }

  /** `Ok(p + [x])`, or the error already found */
  function AppendPart(r: Result<seq<string>>, x: string): Result<seq<string>> {
    match r
    case Err(e) => r
    case Ok(p) => Ok(p + [x])
  }

  /**
   * The parts of the module path of the last node of `chain` (listed from
   * the root down), outermost first: instance nodes contribute nothing; a
   * module contributes its stem, and with `stopAtModule` nothing above it
   * counts and the stem itself only with `includeModule`.
   */
  function ModParts(chain: seq<Node>, stopAtModule: bool, includeModule: bool): Result<seq<string>> {
    if chain == [] then Ok([])
    else
      var init, node := chain[..|chain| - 1], chain[|chain| - 1];
      match node
      case Instance => ModParts(init, stopAtModule, includeModule)
      case Module(name) =>
        if !EndsWith(name, ".py") then Err(NotAPyModule(name))
        else if stopAtModule then Ok(if includeModule then [ModuleStem(name)] else [])
        else AppendPart(ModParts(init, stopAtModule, includeModule), ModuleStem(name))
      case _ => AppendPart(ModParts(init, stopAtModule, includeModule), node.name)
  }

  /** What `getmodpath` returns: the parts joined with '.', with ".[" turned into "[". */
  function ModPath(chain: seq<Node>, stopAtModule: bool, includeModule: bool): Result<string> {
    match ModParts(chain, stopAtModule, includeModule)
    case Err(e) => Err(e)
    case Ok(parts) => Ok(ReplaceDotBracket(Join(parts, ".")))
  }

  /** `Ok(p + q)`, or the error already found */
  function Then(r: Result<seq<string>>, q: seq<string>): Result<seq<string>> {
    match r
    case Err(e) => r
    case Ok(p) => Ok(p + q)
  }

  lemma ThenNil(r: Result<seq<string>>)
    ensures Then(r, []) == r
  {
    if r.Ok? {
      assert r.value + [] == r.value;
    }
  }

  lemma ThenAppend(r: Result<seq<string>>, x: string, q: seq<string>)
    ensures Then(AppendPart(r, x), q) == Then(r, [x] + q)
  {
    if r.Ok? {
      assert r.value + [x] + q == r.value + ([x] + q);
    }
  }

  /** Unfolding `ModParts` on the prefix `chain[..j]`, whose last node is `chain[j - 1]`. */
  lemma ModPartsPrefix(chain: seq<Node>, j: int, stopAtModule: bool, includeModule: bool, tail: seq<string>)
    requires 0 < j <= |chain|
    ensures chain[j - 1].Instance? ==>
      Then(ModParts(chain[..j], stopAtModule, includeModule), tail) ==
      Then(ModParts(chain[..j - 1], stopAtModule, includeModule), tail)
    ensures chain[j - 1].Module? && !EndsWith(chain[j - 1].name, ".py") ==>
      Then(ModParts(chain[..j], stopAtModule, includeModule), tail) == Err(NotAPyModule(chain[j - 1].name))
    ensures chain[j - 1].Module? && EndsWith(chain[j - 1].name, ".py") && stopAtModule ==>
      ModParts(chain[..j], stopAtModule, includeModule) ==
      Ok(if includeModule then [ModuleStem(chain[j - 1].name)] else [])
    ensures !chain[j - 1].Instance? && !(chain[j - 1].Module? && (stopAtModule || !EndsWith(chain[j - 1].name, ".py"))) ==>
      Then(ModParts(chain[..j], stopAtModule, includeModule), tail) ==
      Then(ModParts(chain[..j - 1], stopAtModule, includeModule), [PathName(chain[j - 1])] + tail)
  {
    var c := chain[..j];
    assert c[..|c| - 1] == chain[..j - 1];
    assert c[|c| - 1] == chain[j - 1];
    if !chain[j - 1].Instance? {
      ThenAppend(ModParts(chain[..j - 1], stopAtModule, includeModule), PathName(chain[j - 1]), tail);
    }
  }

  /**
   * `getmodpath`: walk the chain from the node itself up to the root,
   * collecting names, then put them in root-first order and join them.
   */
  method GetModPath(chain: seq<Node>, stopAtModule: bool, includeModule: bool) returns (r: Result<string>)
    ensures r == ModPath(chain, stopAtModule, includeModule)
  {
    var rchain := Reverse(chain);
    var parts: seq<string> := [];
    var i := 0;
    assert chain[..|chain|] == chain;
    assert Reverse(parts) == [];
    ThenNil(ModParts(chain, stopAtModule, includeModule));
    while i < |rchain|
      invariant 0 <= i <= |rchain|
      invariant ModParts(chain, stopAtModule, includeModule) ==
        Then(ModParts(chain[..|chain| - i], stopAtModule, includeModule), Reverse(parts))
    {
      var node := rchain[i];
      assert node == chain[|chain| - i - 1];
      ModPartsPrefix(chain, |chain| - i, stopAtModule, includeModule, Reverse(parts));
      if node.Instance? {
        i := i + 1;
        continue;
      }
      var name := node.name;
      if node.Module? {
        if !EndsWith(name, ".py") {
          return Err(NotAPyModule(name));
        }
        name := name[..|name| - 3];
        if stopAtModule {
          if includeModule {
            ReverseSnoc(parts, name);
            parts := parts + [name];
          } else {
            assert [] + Reverse(parts) == Reverse(parts);
          }
          break;
        }
      }
      ReverseSnoc(parts, name);
      parts := parts + [name];
      i := i + 1;
    }
    assert i == |chain| ==> chain[..|chain| - i] == [] && [] + Reverse(parts) == Reverse(parts);
    assert ModParts(chain, stopAtModule, includeModule) == Ok(Reverse(parts));
    parts := Reverse(parts);
    r := Ok(ReplaceDotBracket(Join(parts, ".")));
  }

  /** the part a node contributes to a module path, when it contributes one */
  function PathName(n: Node): string
    requires !n.Instance?
  {
    if n.Module? && EndsWith(n.name, ".py") then ModuleStem(n.name) else n.name
  }

  /** the parts the nodes `ns` contribute, outermost first: every node but an instance */
  function PathNames(ns: seq<Node>): seq<string> {
    if ns == [] then []
    else
      var init, node := ns[..|ns| - 1], ns[|ns| - 1];
      PathNames(init) + (if node.Instance? then [] else [PathName(node)])
  }

  /**
   * With `stopAtModule`, the module path consists of the names of the
   * nodes below the innermost module (instances skipped), preceded by the
   * module's stem only with `includeModule`; a module name without ".py"
   * fails the assertion.
   */
  lemma {:induction false} ModPartsStop(pre: seq<Node>, name: string, post: seq<Node>, includeModule: bool)
    requires forall k :: 0 <= k < |post| ==> !post[k].Module?
    ensures ModParts(pre + [Module(name)] + post, true, includeModule) ==
      if !EndsWith(name, ".py") then Err(NotAPyModule(name))
      else Ok((if includeModule then [ModuleStem(name)] else []) + PathNames(post))
  {
    var chain := pre + [Module(name)] + post;
    if post == [] {
      assert chain[..|chain| - 1] == pre && chain[|chain| - 1] == Module(name);
      assert PathNames(post) == [];
      if EndsWith(name, ".py") {
        var head := if includeModule then [ModuleStem(name)] else [];
        assert head + [] == head;
      }
    } else {
      var init := post[..|post| - 1];
      var node := post[|post| - 1];
      var mid := pre + [Module(name)] + init;
      assert chain == mid + [node] && post == init + [node];
      assert !node.Module?;
      ModPartsSnoc(mid, node, true, includeModule);
      PathNamesSnoc(init, node);
      ModPartsStop(pre, name, init, includeModule);
      if EndsWith(name, ".py") {
        var head := if includeModule then [ModuleStem(name)] else [];
        if node.Instance? {
          assert PathNames(init) + [] == PathNames(init);
        } else {
          ConcatAssoc(head, PathNames(init), [PathName(node)]);
        }
      }
    }
  }

  /** Below the modules, a node adds its name to the path, an instance nothing. */
  lemma ModPartsSnoc(init: seq<Node>, node: Node, stopAtModule: bool, includeModule: bool)
    requires !node.Module?
    ensures ModParts(init + [node], stopAtModule, includeModule) ==
      if node.Instance? then ModParts(init, stopAtModule, includeModule)
      else AppendPart(ModParts(init, stopAtModule, includeModule), node.name)
  {
    var c := init + [node];
    assert c[..|c| - 1] == init && c[|c| - 1] == node;
  }

  lemma PathNamesSnoc(init: seq<Node>, node: Node)
    ensures PathNames(init + [node]) == PathNames(init) + (if node.Instance? then [] else [PathName(node)])
  {
    var c := init + [node];
    assert c[..|c| - 1] == init && c[|c| - 1] == node;
  }

  /**
   * Without `stopAtModule`, when every module on the chain is named
   * "*.py", the module path consists of the names of all nodes from the
   * root down, instances skipped and modules by their stems.
   */
  lemma {:induction false} ModPartsAll(chain: seq<Node>, includeModule: bool)
    requires forall k :: 0 <= k < |chain| && chain[k].Module? ==> EndsWith(chain[k].name, ".py")
    ensures ModParts(chain, false, includeModule) == Ok(PathNames(chain))
  {
    if chain != [] {
      var init := chain[..|chain| - 1];
      ModPartsAll(init, includeModule);
      if chain[|chain| - 1].Instance? {
        assert PathNames(init) + [] == PathNames(init);
      }
    }
  }

  /**
   * With `stopAtModule` but no module on the chain, the loop runs to the
   * end: every node's name counts, as without `stopAtModule`.
   */
  lemma {:induction false} ModPartsNoModule(chain: seq<Node>, includeModule: bool)
    requires forall k :: 0 <= k < |chain| ==> !chain[k].Module?
    ensures ModParts(chain, true, includeModule) == Ok(PathNames(chain))
  {
    if chain != [] {
      var init := chain[..|chain| - 1];
      assert forall k :: 0 <= k < |init| ==> init[k] == chain[k];
      ModPartsNoModule(init, includeModule);
      if chain[|chain| - 1].Instance? {
        assert PathNames(init) + [] == PathNames(init);
      }
    }
  }

  /**
   * A name that can sit between dots in a module path: not empty, not
   * ending in '.', and with no ".[" inside.
   */
  predicate PlainPart(p: string) {
    && |p| > 0
    && p[|p| - 1] != '.'
    && forall k :: 0 <= k < |p| - 1 ==> !(p[k] == '.' && p[k + 1] == '[')
  }

  /**
   * The intended rendering of a module path: the parts joined with '.',
   * except that a part starting with '[' (a generated test) is attached
   * to the part before it without a dot.
   */
  function Glue(parts: seq<string>): string {
    if |parts| <= 1 then Join(parts, ".")
    else parts[0] + (if |parts[1]| > 0 && parts[1][0] == '[' then "" else ".") + Glue(parts[1..])
  }

  lemma {:induction false} JoinHead(parts: seq<string>)
    requires |parts| > 0 && |parts[0]| > 0
    ensures |Join(parts, ".")| > 0 && Join(parts, ".")[0] == parts[0][0]
  {
  }

  /** A dot put before a string is removed by the replacement exactly when the string starts with '['. */
  lemma DotBeforeReplaced(s: string)
    requires |s| > 0
    ensures ReplaceDotBracket("." + s) == if s[0] == '[' then ReplaceDotBracket(s) else "." + ReplaceDotBracket(s)
  {
    var ds := "." + s;
    assert |ds| >= 2 && ds[0] == '.' && ds[1] == s[0];
    if s[0] == '[' {
      assert ds[2..] == s[1..];
      var tail := ReplaceDotBracket(s[1..]);
      assert ReplaceDotBracket(ds) == "[" + tail;
      assert ReplaceDotBracket(s) == [s[0]] + tail;
    } else {
      assert ds[1..] == s;
      assert ReplaceDotBracket(ds) == [ds[0]] + ReplaceDotBracket(s);
    }
  }

  /** One step of `ModPathGlue`: a plain part put in front of a path already rendered as `Glue` renders. */
  lemma GlueStep(p0: string, rest: seq<string>)
    requires PlainPart(p0) && |rest| > 0 && |rest[0]| > 0
    requires ReplaceDotBracket(Join(rest, ".")) == Glue(rest)
    ensures ReplaceDotBracket(Join([p0] + rest, ".")) == Glue([p0] + rest)
  {
    var parts := [p0] + rest;
    assert parts[1..] == rest && parts[0] == p0;
    var jr := Join(rest, ".");
    JoinHead(rest);
    var sep := if rest[0][0] == '[' then "" else ".";
    assert Glue(parts) == p0 + sep + Glue(rest);
    assert Join(parts, ".") == p0 + ("." + jr);
    ReplaceDotBracketAppend(p0, "." + jr);
    ReplaceDotBracketNoMatch(p0);
    var tail := ReplaceDotBracket("." + jr);
    assert ReplaceDotBracket(Join(parts, ".")) == p0 + tail;
    DotBeforeReplaced(jr);
    var g := Glue(rest);
    assert tail == sep + g;
    ConcatAssoc(p0, sep, g);
  }

  /**
   * Joining with '.' and then replacing ".[" by "[" renders a path of
   * plain parts as `Glue` does: the replacement removes exactly the dots
   * the join put before generated-test parts.
   */
  lemma {:induction false} ModPathGlue(parts: seq<string>)
    requires forall k :: 0 <= k < |parts| ==> PlainPart(parts[k])
    ensures ReplaceDotBracket(Join(parts, ".")) == Glue(parts)
  {
    if |parts| == 1 {
      assert PlainPart(parts[0]);
      ReplaceDotBracketNoMatch(parts[0]);
    } else if |parts| > 1 {
      var rest := parts[1..];
      assert forall k :: 0 <= k < |rest| ==> rest[k] == parts[k + 1];
      ModPathGlue(rest);
      assert PlainPart(parts[0]) && PlainPart(rest[0]);
      assert parts == [parts[0]] + rest;
      GlueStep(parts[0], rest);
    }
  }

  /* ---------------------------------------------------------------------
   * _genfunctions and Function._getobj
   * ------------------------------------------------------------------- */

  /** what a collector's `makeitem` returns: `None`, one item, or a list of items */
  datatype Made<I> = Nothing | One(item: I) | Many(items: seq<I>)

  /** the items `collect` adds to its list for one `makeitem` result */
  function MadeItems<I>(m: Made<I>): seq<I> {
    match m
    case Nothing => []
    case One(x) => [x]
    case Many(xs) => xs
  }

  /**
   * A test function item as `Function.__init__` sets it up for a function
   * that is not yielded: its name, the keyword arguments, the call id it
   * was generated for, the indirect parameter and the extra keywords.
   */
  datatype TestFunction = TestFunction(
    name: string,
    funcargs: map<string, Value>,
    genid: Option<string>,
    requestParam: Option<Value>,
    keywords: set<string>)

  /** `Function(name, parent, callspec=..., keywords=...)` */
  function FunctionItem(name: string, callspec: Option<CallSpec>, keywords: set<string>): (r: TestFunction)
    ensures r.name == name && r.keywords == keywords
    ensures callspec.None? ==> r.funcargs == map[] && r.genid.None? && r.requestParam.None?
    ensures callspec.Some? ==>
      && r.genid == Some(callspec.value.id)
      && r.requestParam == callspec.value.param
      && (callspec.value.funcargs.Some? ==> r.funcargs == callspec.value.funcargs.value)
      && (callspec.value.funcargs.None? ==> r.funcargs == map[])
  {
    match callspec
    case None => TestFunction(name, map[], None, None, keywords)
    case Some(c) =>
      var funcargs := if c.funcargs.Some? then c.funcargs.value else map[];
      TestFunction(name, funcargs, Some(c.id), c.param, keywords)
  }

  /** `"%s[%s]" % (name, id)`: the name of the item generated for one call */
  function Subname(name: string, id: string): (r: string)
    ensures |r| == |name| + |id| + 2
    ensures r[..|name|] == name && r[|name|] == '[' && r[|r| - 1] == ']'
  {
    name + "[" + id + "]"
  }

  /** Items generated for different calls of one function get different names. */
  lemma SubnameInjective(name: string, a: string, b: string)
    requires Subname(name, a) == Subname(name, b)
    ensures a == b
  {
    var s := Subname(name, a);
    assert a == s[|name| + 1..|s| - 1];
  }

  /**
   * `_genfunctions`: without recorded calls, one plain item named after
   * the function; otherwise one item per call, in call order, named
   * `name[id]`, carrying that call and keyed by its id.
   */
  method GenFunctions(name: string, calls: seq<CallSpec>) returns (r: Made<TestFunction>)
    ensures calls == [] ==> r == One(FunctionItem(name, None, {}))
    ensures calls != [] ==> r.Many? && |r.items| == |calls|
    ensures calls != [] ==> forall k :: 0 <= k < |calls| ==>
      r.items[k] == FunctionItem(Subname(name, calls[k].id), Some(calls[k]), {calls[k].id})
  {
    if calls == [] {
      return One(FunctionItem(name, None, {}));
    }
    var l: seq<TestFunction> := [];
    for i := 0 to |calls|
      invariant |l| == i
      invariant forall k :: 0 <= k < i ==>
        l[k] == FunctionItem(Subname(name, calls[k].id), Some(calls[k]), {calls[k].id})
    {
      var callspec := calls[i];
      var subname := Subname(name, callspec.id);
      l := l + [FunctionItem(subname, Some(callspec), {callspec.id})];
    }
    r := Many(l);
  }

  /**
   * The name `Function._getobj` looks up on the parent object: the item's
   * name up to its first '[' (the parametrisation suffix), or the whole
   * name when it has none.
   */
  function BaseName(name: string): (r: string)
    ensures |r| <= |name| && r == name[..|r|]
    ensures forall k :: 0 <= k < |r| ==> r[k] != '['
    ensures |r| == |name| || name[|r|] == '['
  {
    var i := Find(name, "[");
    if i != -1 then
      assert forall k :: 0 <= k < i ==> name[k] != '[' by {
        forall k | 0 <= k < i ensures name[k] != '[' {
          assert !OccursAt(name, "[", k);
          assert name[k..k + 1] == [name[k]];
        }
      }
      assert name[i..i + 1] == "[";
      name[..i]
    else
      assert forall k :: 0 <= k < |name| ==> name[k] != '[' by {
        forall k | 0 <= k < |name| ensures name[k] != '[' {
          assert !Contains(name, "[");
          assert !OccursAt(name, "[", k);
          assert name[k..k + 1] == [name[k]];
        }
      }
      name
  }

  /**
   * `_getobj` finds the generating function again: stripping a
   * generated item's name gives back the function's name, provided that
   * name has no '[' of its own.
   */
  lemma BaseNameSubname(name: string, id: string)
    requires forall k :: 0 <= k < |name| ==> name[k] != '['
    ensures BaseName(Subname(name, id)) == name
  {
    var s := Subname(name, id);
    assert s[|name|] == '[';
  }

  /**
   * The items `_genfunctions` makes for the calls of a `Metafunc` have
   * distinct names, and each one's base name is the function's.
   */
  lemma GenFunctionsNames(name: string, calls: seq<CallSpec>, items: seq<TestFunction>)
    requires forall i, j :: 0 <= i < j < |calls| ==> calls[i].id != calls[j].id
    requires forall k :: 0 <= k < |name| ==> name[k] != '['
    requires |items| == |calls|
    requires forall k :: 0 <= k < |calls| ==>
      items[k] == FunctionItem(Subname(name, calls[k].id), Some(calls[k]), {calls[k].id})
    ensures forall i, j :: 0 <= i < j < |items| ==> items[i].name != items[j].name
    ensures forall k :: 0 <= k < |items| ==> BaseName(items[k].name) == name
  {
    forall i, j | 0 <= i < j < |items| ensures items[i].name != items[j].name {
      if items[i].name == items[j].name {
        SubnameInjective(name, calls[i].id, calls[j].id);
      }
    }
    forall k | 0 <= k < |items| ensures BaseName(items[k].name) == name {
      BaseNameSubname(name, calls[k].id);
    }
  }

  /* ---------------------------------------------------------------------
   * PyCollectorMixin.collect: name deduplication and the '_' filter
   * ------------------------------------------------------------------- */

  /** one `(name, obj)` pair of a `__dict__`, in the order `dict.items()` yields it */
  type Entry = (string, Value)

  /** the entries of all dictionaries, the first dictionary's first */
  function Flatten(dicts: seq<seq<Entry>>): (r: seq<Entry>)
    ensures dicts == [] ==> r == []
  {
    if dicts == [] then [] else Flatten(dicts[..|dicts| - 1]) + dicts[|dicts| - 1]
  }

  /** the names a list of entries defines */
  function NamesOf(es: seq<Entry>): set<string> {
    set k | 0 <= k < |es| :: es[k].0
  }

  lemma NamesOfSnoc(es: seq<Entry>, e: Entry)
    ensures NamesOf(es + [e]) == NamesOf(es) + {e.0}
  {
    var all := es + [e];
    forall x | x in NamesOf(all) ensures x in NamesOf(es) + {e.0} {
      var k :| 0 <= k < |all| && all[k].0 == x;
      if k < |es| { assert es[k] == all[k]; }
    }
    forall x | x in NamesOf(es) ensures x in NamesOf(all) {
      var k :| 0 <= k < |es| && es[k].0 == x;
      assert all[k] == es[k];
    }
    assert all[|es|] == e;
  }

  /** what `collect` holds between two entries: the names seen and the items gathered */
  datatype CState<I> = CState(seen: set<string>, items: seq<I>)

  /**
   * One entry of `collect`: a name already seen is skipped; otherwise it
   * is marked seen, `name[0]` raises IndexError on the empty name, and a
   * name not starting with '_' adds what `makeitem` returns.
   */
  function CStep<I>(st: CState<I>, e: Entry, makeitem: (string, Value) -> Made<I>): Result<CState<I>> {
    var name := e.0;
    if name in st.seen then Ok(st)
    else if name == "" then Err(IndexError)
    else if name[0] != '_' then Ok(CState(st.seen + {name}, st.items + MadeItems(makeitem(name, e.1))))
    else Ok(CState(st.seen + {name}, st.items))
  }

  /** `collect` run over a list of entries, up to its final sort */
  function CScan<I>(es: seq<Entry>, makeitem: (string, Value) -> Made<I>): Result<CState<I>> {
    if es == [] then Ok(CState({}, []))
    else match CScan(es[..|es| - 1], makeitem)
      case Err(e) => Err(e)
      case Ok(st) => CStep(st, es[|es| - 1], makeitem)
  }

  /** the entries that define their name first: the ones `collect` does not skip as seen */
  function Firsts(es: seq<Entry>): seq<Entry> {
    if es == [] then []
    else
      var init, e := es[..|es| - 1], es[|es| - 1];
      Firsts(init) + (if e.0 in NamesOf(init) then [] else [e])
  }

  /** the items `makeitem` makes for those entries whose name does not start with '_' */
  function Produce<I>(es: seq<Entry>, makeitem: (string, Value) -> Made<I>): seq<I> {
    if es == [] then []
    else
      var init, e := es[..|es| - 1], es[|es| - 1];
      Produce(init, makeitem) + (if e.0 != "" && e.0[0] != '_' then MadeItems(makeitem(e.0, e.1)) else [])
  }

  lemma ProduceSnoc<I>(es: seq<Entry>, e: Entry, makeitem: (string, Value) -> Made<I>)
    ensures Produce(es + [e], makeitem) ==
      Produce(es, makeitem) + (if e.0 != "" && e.0[0] != '_' then MadeItems(makeitem(e.0, e.1)) else [])
  {
    assert (es + [e])[..|es|] == es;
  }

  /**
   * `collect` fails exactly when some dictionary defines the empty name,
   * and with IndexError; otherwise it has seen every name once and
   * gathered, in order, the items made for the first definition of each
   * name that does not start with '_'.
   */
  lemma {:induction false} CScanSpec<I>(es: seq<Entry>, makeitem: (string, Value) -> Made<I>)
    ensures CScan(es, makeitem).Err? <==> "" in NamesOf(es)
    ensures CScan(es, makeitem).Err? ==> CScan(es, makeitem).error == IndexError
    ensures CScan(es, makeitem).Ok? ==>
      CScan(es, makeitem).value == CState(NamesOf(es), Produce(Firsts(es), makeitem))
  {
    if es != [] {
      var init, e := es[..|es| - 1], es[|es| - 1];
      assert es == init + [e];
      CScanSpec(init, makeitem);
      NamesOfSnoc(init, e);
      if e.0 !in NamesOf(init) {
        ProduceSnoc(Firsts(init), e, makeitem);
      } else {
        assert NamesOf(es) == NamesOf(init);
        assert Firsts(es) == Firsts(init) + [] == Firsts(init);
      }
    }
  }

  /** `Firsts` keeps every name, and each only once. */
  lemma {:induction false} FirstsNames(es: seq<Entry>)
    ensures NamesOf(Firsts(es)) == NamesOf(es)
    ensures forall i, j :: 0 <= i < j < |Firsts(es)| ==> Firsts(es)[i].0 != Firsts(es)[j].0
  {
    if es != [] {
      var init, e := es[..|es| - 1], es[|es| - 1];
      var fi := Firsts(init);
      assert es == init + [e];
      FirstsNames(init);
      NamesOfSnoc(init, e);
      if e.0 in NamesOf(init) {
        assert NamesOf(es) == NamesOf(init);
        assert Firsts(es) == fi + [] == fi;
      } else {
        NamesOfSnoc(fi, e);
        assert Firsts(es) == fi + [e];
        forall i | 0 <= i < |fi| ensures fi[i].0 != e.0 {
          assert fi[i].0 in NamesOf(fi);
        }
      }
    }
  }

  /** An entry that defines its name first is kept by `Firsts`. */
  lemma {:induction false} FirstsKeepsFirst(es: seq<Entry>, k: nat)
    requires k < |es| && es[k].0 !in NamesOf(es[..k])
    ensures es[k] in Firsts(es)
  {
    var init := es[..|es| - 1];
    if k == |es| - 1 {
      assert Firsts(es) == Firsts(init) + [es[k]];
    } else {
      assert init[..k] == es[..k];
      FirstsKeepsFirst(init, k);
    }
  }

  /** Every entry `Firsts` keeps is the first definition of its name. */
  lemma {:induction false} FirstsOnlyFirst(es: seq<Entry>, x: Entry)
    requires x in Firsts(es)
    ensures exists k :: 0 <= k < |es| && es[k] == x && x.0 !in NamesOf(es[..k])
  {
    var init, e := es[..|es| - 1], es[|es| - 1];
    if x in Firsts(init) {
      FirstsOnlyFirst(init, x);
      var k :| 0 <= k < |init| && init[k] == x && x.0 !in NamesOf(init[..k]);
      assert es[k] == x && es[..k] == init[..k];
    } else {
      assert x == e && e.0 !in NamesOf(init);
      assert es[|es| - 1] == x && es[..|es| - 1] == init;
    }
  }

  lemma FlattenSnoc(dicts: seq<seq<Entry>>, d: nat)
    requires d < |dicts|
    ensures Flatten(dicts[..d + 1]) == Flatten(dicts[..d]) + dicts[d]
  {
    assert dicts[..d + 1][..d] == dicts[..d];
  }

  /** every entry of every dictionary is among the flattened entries */
  lemma {:induction false} FlattenHas(dicts: seq<seq<Entry>>, d: nat, j: nat)
    requires d < |dicts| && j < |dicts[d]|
    ensures dicts[d][j].0 in NamesOf(Flatten(dicts))
  {
    var f := Flatten(dicts);
    var init := dicts[..|dicts| - 1];
    if d == |dicts| - 1 {
      assert f[|Flatten(init)| + j] == dicts[d][j];
    } else {
      FlattenHas(init, d, j);
      var k :| 0 <= k < |Flatten(init)| && Flatten(init)[k].0 == dicts[d][j].0;
      assert f[k] == Flatten(init)[k];
    }
  }

  /**
   * `collect` up to its final sort: the instance dictionary and then each
   * class of the method resolution order, every name once (the first
   * definition shadows the later ones), names starting with '_' skipped,
   * the items `makeitem` returns gathered in order.
   */
  method Collect<I>(dicts: seq<seq<Entry>>, makeitem: (string, Value) -> Made<I>) returns (r: Result<seq<I>>)
    ensures r.Err? <==> "" in NamesOf(Flatten(dicts))
    ensures r.Err? ==> r.error == IndexError
    ensures r.Ok? ==> r.value == Produce(Firsts(Flatten(dicts)), makeitem)
  {
    var seen: set<string> := {};
    var l: seq<I> := [];
    for d := 0 to |dicts|
      invariant CScan(Flatten(dicts[..d]), makeitem) == Ok(CState(seen, l))
    {
      var failed;
      failed, seen, l := ScanDict(Flatten(dicts[..d]), dicts[d], seen, l, makeitem);
      if failed {
        ghost var j :| 0 <= j < |dicts[d]| && dicts[d][j].0 == "";
        FlattenHas(dicts, d, j);
        return Err(IndexError);
      }
      FlattenSnoc(dicts, d);
    }
    assert dicts[..|dicts|] == dicts;
    CScanSpec(Flatten(dicts), makeitem);
    r := Ok(l);
  }

  /**
   * The inner loop of `collect` over one `__dict__`, continuing the scan
   * of the entries `done` before it; it stops at an empty name, where
   * `name[0]` raises `IndexError`.
   */
  method ScanDict<I>(ghost done: seq<Entry>, dic: seq<Entry>, seen0: set<string>, l0: seq<I>,
                     makeitem: (string, Value) -> Made<I>)
    returns (failed: bool, seen: set<string>, l: seq<I>)
    requires CScan(done, makeitem) == Ok(CState(seen0, l0))
    ensures failed ==> exists j :: 0 <= j < |dic| && dic[j].0 == ""
    ensures !failed ==> CScan(done + dic, makeitem) == Ok(CState(seen, l))
  {
    failed, seen, l := false, seen0, l0;
    assert done + dic[..0] == done;
    for j := 0 to |dic|
      invariant CScan(done + dic[..j], makeitem) == Ok(CState(seen, l))
    {
      var name, obj := dic[j].0, dic[j].1;
      ghost var next := done + dic[..j + 1];
      assert next[..|next| - 1] == done + dic[..j] && next[|next| - 1] == dic[j];
      assert CScan(next, makeitem) == CStep(CState(seen, l), dic[j], makeitem);
      if name in seen {
        continue;
      }
      if name == "" {
        return true, seen, l;
      }
      seen := seen + {name};
      ghost var before := l;
      if name[0] != '_' {
        var res := makeitem(name, obj);
        match res {
          case Nothing =>
          case One(item) => l := l + [item];
          case Many(items) => l := l + items;
        }
        assert l == before + MadeItems(res);
      }
      assert CScan(next, makeitem) == Ok(CState(seen, l));
    }
    assert dic[..|dic|] == dic;
  }

}
