# py.test 2.0.0.dev0: assertion explanations, Python test collection, entry points

This project models three parts of the py.test code base in Dafny and proves
what they promise.

- **Assertion explanations** (`_pytest/assertion.py`). This is the
  `pytest_assertrepr_compare` hook, which turns a failed `==` or `not in`
  comparison into explanation lines. It produces the summary line from two
  bounded reprs, then one of these detail parts:
  - the line diff (`ndiff`) of two strings (`_diff_text`), after skipping a
    long identical prefix and suffix;
  - the first differing index and the first extra item of two sequences
    (`_compare_eq_sequence`);
  - the extra items of two sets (`_compare_eq_set`);
  - the diff of two dicts' `pformat` texts;
  - the `not in` explanation (`_notin_text`).

  It also models the exception fallback, the 640-character truncation, and
  `callbinrepr`, which joins the first useful hook answer with `'\n~'`. The
  code is imperative. Each loop is a Dafny `method` proved equal to a
  specification function, and the properties are lemmas about those
  functions.
- **Python test collection** (`pytest/plugin/python.py`), covering:
  - `Metafunc.addcall`, which records parametrized calls with unique string
    ids; it is a class with `calls` and `ids` fields;
  - `getfuncargnames`, `_getscopeitem`, and the name filters with the default
    `pytest_pycollect_makeitem` choice;
  - `PyobjMixin.getmodpath`;
  - `PyCollectorMixin.collect`, which walks the `__dict__`s, keeps the first
    definition of each name, skips private names, and raises `IndexError` on
    an empty name;
  - `_genfunctions`, which makes one `Function` item per call, named
    `name[id]`;
  - the name stripping in `Function._getobj`;
  - `Generator.collect` with `getcallargs`, which makes yielded tests, refuses
    non-callables and repeated names, and numbers unnamed tests.
- **Console scripts** (`setup.py`). `cmdline_entrypoints` decides which
  `py.test*` scripts an interpreter gets. `make_entry_points` sorts the keys
  and formats them as `"key = target"` lines.

Python's `str` is `seq<char>`. Python slicing, including negative indices,
`find`, `strip('\n')`, `replace(".[", "[")`, `'%d'` and string ordering are
written out in module `PyStr`.

Some library calls are not part of this model: `py.io.saferepr`, `'%r'`,
`pprint.pformat`, `difflib.ndiff`, `str.splitlines`, set iteration order, the
`callable()` test and the `makeitem` hook. Each of these is a function-typed
parameter (the `Foreign` record in `PyValues`, or an explicit argument), so
the properties hold for any behaviour of them, with two exceptions: the set
lemmas (`SetBlockSpec`, `SetLinesSpec`) assume that set iteration lists each
element exactly once, and `SummaryFitsLine` assumes that `saferepr` respects
its `maxsize`.

Two quirks of the code are modelled as written.
- `_diff_text` reads `left[-i]` in its trailing loop, so the first pass
  (`i == 0`) compares the first characters. `TrailingIndexSpec` therefore says
  that a non-zero trailing count implies equal first characters, not a
  matching last character.
- `getmodpath` glues a part that starts with `[` to the one before it by
  replacing `".["` in the joined string. `ModPathGlue` proves this is the
  intended join whenever every part is non-empty and no part itself ends
  in `.` or contains `".["`.

## Model

| member | source | states |
|---|---|---|
| Assertion.LoopIndexSpec | _pytest/assertion.py:162-165 | `for i in range(n): if bad(i): break` leaves `i` at the first bad index, or at `n - 1` when none is bad, and nothing else |
| Assertion.LeadingIndexSpec | _pytest/assertion.py:161-165 | the leading loop stops inside both strings, and the prefixes before it are equal |
| Assertion.TrailingIndexSpec | _pytest/assertion.py:172-175 | the trailing loop's `i` lies inside the strings; the last `i - 1` characters agree, and so do the first ones when `i > 0` (`left[-0]` is `left[0]`) |
| Assertion.TrimLeadingSpec | _pytest/assertion.py:161-171 | the leading pass drops a prefix the strings share, which is empty unless the loop ran past 42, and then is 10 shorter than the loop's count; it notes the drop exactly when it drops something |
| Assertion.TrimTrailingSpec | _pytest/assertion.py:172-181 | the trailing pass runs only on strings of equal length; with `j` the index its loop leaves, it drops `j - 10` shared trailing characters when `j > 42` and nothing otherwise, and appends a note exactly when it drops something |
| Assertion.TrimCommonSpec | _pytest/assertion.py:155-181 | after both passes, what remains of each string is it minus a shared prefix of length `p` and a shared suffix of length `q`, with one note per non-empty cut, in order; `p` and `q` are each the loop index less 10 when that index exceeds 42, and 0 otherwise |
| PyStr.StripNewlines | _pytest/assertion.py:182-184 | `line.strip('\n')` leaves the line with only newlines removed before and after it, neither starting nor ending with a newline, and a line with no newline at either end unchanged |
| PyStr.StripNewlinesOnly | _pytest/assertion.py:182-184 | those three facts determine the result: any string meeting them is `StripNewlines` of the line |
| Assertion.StripEach | _pytest/assertion.py:182-184 | one line per diff line, each its input with only newlines removed before and after it; no line of the result starts or ends with a newline, and a line that had none at either end is kept as it was |
| Assertion.DiffTextLinesSpec | _pytest/assertion.py:155-185 | the explanation is the skip notes (at most two), followed by the `ndiff` lines of the trimmed strings, newline-stripped and in order |
| Assertion.SkipLeading | _pytest/assertion.py:160-171 | the leading loop and cut compute the leading pass |
| Assertion.SkipTrailing | _pytest/assertion.py:172-181 | the trailing loop and cut compute the trailing pass |
| Assertion.DiffText | _pytest/assertion.py:155-185 | `_diff_text` returns the skip notes followed by the stripped `ndiff` lines |
| Assertion.FirstDifferenceSpec | _pytest/assertion.py:190-194 | the loop finds nothing exactly when the common prefix agrees; otherwise it finds the least index at which the items differ |
| Assertion.SequenceLinesSpec | _pytest/assertion.py:188-202 | the explanation is empty exactly when the sequences are equal; otherwise it is the "At index" line for the first difference, then the first extra item of the longer one, and nothing more |
| Assertion.CompareEqSequence | _pytest/assertion.py:188-202 | the loop computes `_compare_eq_sequence`, including a failing `%r` |
| Assertion.SetBlockSpec | _pytest/assertion.py:209-216 | a non-empty difference gives its header followed by one line per element: every element's repr is among them and every line after the header is the repr of an element; an empty one gives no lines; all this when set iteration lists each element once |
| Assertion.SetLinesSpec | _pytest/assertion.py:205-217 | the explanation is empty exactly when the sets are equal; otherwise it lists the left-only items, then the right-only items, each block under its header, every element's repr in its block and every item line the repr of an element of that block's difference; all this when set iteration lists each element once |
| Assertion.CompareEqSet | _pytest/assertion.py:205-217 | the loops compute `_compare_eq_set` |
| PyValues.EnumerationLength | _pytest/assertion.py:211-216 | iterating a set without repeats visits as many items as the set holds |
| PyStr.Find | _pytest/assertion.py:221 | `find` returns -1 exactly when the term does not occur; otherwise it returns the first index at which it occurs |
| PyStr.SliceTo | _pytest/assertion.py:222 | `s[:k]` is a prefix of `s` holding `min(k, len(s))` items for `k >= 0`, and `max(0, len(s) + k)` items for `k < 0` |
| PyStr.SliceFrom | _pytest/assertion.py:223 | `s[k:]` is a suffix of `s` dropping `min(k, len(s))` items for `k >= 0`, and holding `min(-k, len(s))` items for `k < 0` |
| Assertion.CorrectTextSpec | _pytest/assertion.py:221-224 | for a contained term, the text compared against is the text with the first occurrence of the term cut out |
| Assertion.RelabelPlus | _pytest/assertion.py:232-233 | a `"+ "` line is kept with its marker replaced by two spaces |
| Assertion.RelabelAllClean | _pytest/assertion.py:227-235 | no line the relabelling loop emits starts with "Skipping" or "- " |
| Assertion.RelabelAllKeepsPlus | _pytest/assertion.py:232-233 | every `"+ "` line of the diff reaches the output, relabelled |
| Assertion.HeaderThenRelabelled | _pytest/assertion.py:226-235 | a header followed by the relabelled diff begins with the header, contains no skip or removal line after it, and keeps each added line |
| Assertion.AppendRelabelled | _pytest/assertion.py:227-235 | the relabelling loop appends exactly the relabelled diff to what is already there |
| Assertion.NotinLinesSpec | _pytest/assertion.py:220-236 | the `not in` explanation starts with "... is contained here:"; no later line is a skip note or a removal; every added line appears, relabelled |
| Assertion.NotinText | _pytest/assertion.py:220-236 | `_notin_text` returns the header followed by the relabelled diff of the corrected text against the text |
| PyStr.StripLeadingNewlines | _pytest/assertion.py:182 | `strip('\n')` on the left removes exactly the leading newlines |
| PyStr.StripTrailingNewlines | _pytest/assertion.py:182 | `strip('\n')` on the right removes exactly the trailing newlines |
| Assertion.Bounded | _pytest/assertion.py:148-150 | the detail lines stay exactly when their joined length is at most 640; otherwise they become the single truncation line, and either way the result is at most 640 long |
| PyStr.JoinLength | _pytest/assertion.py:149 | `''.join` (and any join) is as long as the parts plus one separator between each pair of neighbours |
| Assertion.DetailsChosen | _pytest/assertion.py:120-134 | the `try` block leaves `None` exactly when no branch applies to the operator and operand types, and can raise only in the sequence and dict branches |
| Assertion.TryDetails | _pytest/assertion.py:120-134 | the `if` cascade computes the chosen explanation, or the exception it raises |
| Assertion.Conclude | _pytest/assertion.py:135-152 | the handlers, the emptiness test and the truncation turn the details into the hook's answer |
| Assertion.AssertReprCompare | _pytest/assertion.py:108-152 | the hook computes its specification function |
| Assertion.ReprCompareSpec | _pytest/assertion.py:108-152 | only system-exiting exceptions escape, and they escape unchanged; the answer is `None` exactly when no diff routine applies or it says nothing; otherwise the answer is the summary followed by the caught detail lines, bounded to 640 characters |
| Assertion.FallbackShape | _pytest/assertion.py:137-150 | any other exception becomes the two-line fallback explanation, which is itself truncated when too long |
| Assertion.SummaryFitsLine | _pytest/assertion.py:110-113 | when `saferepr` respects its size bound and the operator is short enough to leave room for both operands, the summary fits the 65 columns after the indentation |
| Assertion.CallBinReprFirstWins | _pytest/assertion.py:34-39 | `callbinrepr` gives nothing exactly when no hook answer is non-empty; otherwise it gives the first non-empty answer joined with `'\n~'` |
| PyCollect.DefaultItemKindNames | pytest/plugin/python.py:60-70 | the default `makeitem` makes a class only for a class named "Test..."; it makes a generator or functions only for a callable named "test..."; it makes nothing for a name starting with '_' |
| PyCollect.GetFuncArgNamesSpec | pytest/plugin/python.py:463-472 | the funcarg names are the argument names without the bound `self` and without the defaulted tail; they are empty when those overlap |
| PyCollect.ParentModule | pytest/plugin/python.py:681 | `getparent(Module)` finds the innermost module among the parents, and finds none only when there is none |
| PyCollect.GetScopeItem | pytest/plugin/python.py:677-684 | "function" gives the item itself, "module" gives the innermost enclosing module (`ParentModule`), "session" gives `None`, and every other scope is a `ValueError` |
| PyCollect.Metafunc.constructor | pytest/plugin/python.py:501-510 | a new `Metafunc` has the function's funcarg names and no calls or ids |
| PyCollect.Metafunc.AddCall | pytest/plugin/python.py:512-540 | `id=None` and a duplicate id raise and change nothing; otherwise one call is appended with the resolved id (default: the number of calls so far), and the ids stay exactly the calls' ids |
| PyCollect.DefaultIdsFresh | pytest/plugin/python.py:534-538 | calls that all took the default id never make the next default id a duplicate |
| PyCollect.GetCallArgsSpec | pytest/plugin/python.py:373-383 | `getcallargs` fails exactly when no element is left for the callable; otherwise the name, callable and arguments put back together are the tuple or list it unpacked, and the arguments keep its kind |
| PyStr.NatToStringInjective | pytest/plugin/python.py:363-364 | distinct positions give distinct `"%d"` renderings |
| PyCollect.GenNamesCollide | pytest/plugin/python.py:363-366 | two generated names are equal only when both tests carry the same explicit name, or both are unnamed at the same position |
| PyCollect.GenScanSpec | pytest/plugin/python.py:352-371 | a successful collection makes one test per yielded value, in order, under distinct names that are exactly the names seen; each value unpacks, and its callable passes `callable()` |
| PyCollect.GenScanAt | pytest/plugin/python.py:359-370 | the `k`-th test is named after position `k` or the explicit name, with the callable and arguments `getcallargs` found |
| PyCollect.GenNonUniqueOnlyNamed | pytest/plugin/python.py:363-368 | a non-unique-name error can only come from two yielded values with the same explicit name |
| PyCollect.GenScanErrStays | pytest/plugin/python.py:359-368 | once an iteration raises, the later values change nothing |
| PyCollect.CollectGenerated | pytest/plugin/python.py:352-371 | the loop computes `Generator.collect`, including each exception it raises |
| PyCollect.ModPartsStop | pytest/plugin/python.py:95-112 | with `stopatmodule`, the path is the names below the innermost module (instances skipped), preceded by the module's stem only with `includemodule`; a module name without ".py" fails the assertion |
| PyCollect.ModPartsAll | pytest/plugin/python.py:95-112 | without `stopatmodule`, every node's name counts, with modules by their stem |
| PyCollect.ModPartsNoModule | pytest/plugin/python.py:95-112 | with `stopatmodule` on a chain without a module, the loop runs to the end and every node's name counts |
| PyStr.ReplaceDotBracketAppend | pytest/plugin/python.py:114 | `replace(".[", "[")` distributes over a concatenation whose left part does not end in '.' |
| PyCollect.ModPathGlue | pytest/plugin/python.py:113-114 | joining with '.' and then replacing ".[" attaches each "[...]" part to the part before it and keeps every other dot |
| PyCollect.GetModPath | pytest/plugin/python.py:95-114 | the loop computes `getmodpath`, including the failing `.py` assertion |
| PyCollect.Subname | pytest/plugin/python.py:200 | `"%s[%s]" % (name, id)` starts with the name and a '[' and ends with ']' |
| PyCollect.SubnameInjective | pytest/plugin/python.py:200 | different ids give different sub-names |
| PyCollect.GenFunctions | pytest/plugin/python.py:187-204 | without calls there is one plain `Function`; otherwise there is one item per call, in order, named `name[id]`, with that call spec and the id as keyword |
| PyCollect.BaseName | pytest/plugin/python.py:418-422 | `_getobj` looks up the part of the name before the first '[', or the whole name |
| PyCollect.BaseNameSubname | pytest/plugin/python.py:418-422 | `_getobj` of a generated item finds the function it was generated from |
| PyCollect.GenFunctionsNames | pytest/plugin/python.py:187-204 | with distinct call ids, the generated items have distinct names, and each resolves back to the function's name |
| PyCollect.CScanSpec | pytest/plugin/python.py:158-171 | the scan raises `IndexError` exactly when some name is empty; otherwise it has seen every name and made the items of each first definition whose name does not start with '_' |
| PyCollect.FirstsNames | pytest/plugin/python.py:161-164 | the first definitions cover every name, once each |
| PyCollect.FirstsKeepsFirst | pytest/plugin/python.py:161-164 | a definition whose name has not occurred earlier is kept |
| PyCollect.FirstsOnlyFirst | pytest/plugin/python.py:161-164 | only definitions whose name has not occurred earlier are kept |
| PyCollect.FlattenHas | pytest/plugin/python.py:155-161 | every name of every visited `__dict__` is among the names scanned |
| PyCollect.Collect | pytest/plugin/python.py:152-171 | `collect` raises `IndexError` exactly when some `__dict__` has an empty name; otherwise it returns the items made for the first definition of each public name, in scan order |
| EntryPoints.CmdlineEntrypoints | setup.py:52-62 | Jython gets only `py.test-jython`; PyPy gets `py.test-<basename>` and `py.test`; CPython gets `py.test-<major>.<minor>` and `py.test`; all run `pytest:__main__` |
| EntryPoints.CmdlineEntrypointsShape | setup.py:52-62 | every script runs the target; Jython gets one script, without a plain `py.test`; any other interpreter gets exactly two, the plain one among them |
| EntryPoints.Insert | setup.py:68 | inserting into a sorted list keeps it sorted and adds exactly that element |
| EntryPoints.Sort | setup.py:68 | `sort()` gives an ascending permutation of the keys |
| PyStr.StrLessTotal | setup.py:68 | of two different strings, one sorts before the other |
| PyStr.StrLessTransitive | setup.py:68 | string order is transitive |
| PyStr.StrLessIrreflexive | setup.py:68 | no string sorts before itself |
| EntryPoints.SortListsKeys | setup.py:67-68 | sorting the listed keys gives each point once, in strictly ascending order |
| EntryPoints.StrictlySortedUnique | setup.py:67-68 | two strictly ascending lists with the same elements are equal |
| EntryPoints.ScriptLines | setup.py:69 | one `"key = value"` line per key, in the keys' order |
| EntryPoints.MakeEntryPoints | setup.py:64-70 | the entry points have only the `console_scripts` group |
| EntryPoints.MakeEntryPointsSpec | setup.py:64-70 | the console scripts are one `"key = pytest:__main__"` line per entry point, in strictly ascending key order |
| EntryPoints.MakeEntryPointsOrderFree | setup.py:64-70 | the result does not depend on the order `dict.keys()` lists the points in |

## Left out

- Library calls are parameters, so their own behaviour is not modelled: `py.io.saferepr`, `%r`, `pprint.pformat`, `difflib.ndiff`, `str.splitlines`, set iteration order, `callable()`, the `makeitem` hook, `inspect` and `getattr`.
- Python equality and hashing of compared objects are Dafny's structural equality on `Value`, so a user-defined `__eq__` is not modelled.
- Assertion.Summary: `int(width/2)` is Python 3's truncating division. Python 2 floors, which differs only for operators longer than 63 characters.
- Assertion.Caught: which exceptions count as system-exiting (`py.builtin._sysex`) is a flag on the exception, because that tuple is not part of this model.
- `pytest_addoption`, `pytest_configure` (except the `callbinrepr` join it defines), `_write_pyc`, the import hooks around assertion rewriting and `warn_about_missing_assertion` deal with configuration, the file system and the interpreter, not with explanation logic.
- PyCollect.Collect: the final `l.sort(key=reportinfo()[:2])` is left out because `reportinfo` reads source files and line numbers. The contract gives the items in scan order, before that sort.
- PyCollect.Collect: the `__dict__`s and the order `dict.items()` lists their entries in are parameters.
- PyCollect.GenFunctions: getting the `Metafunc` filled by the `pytest_generate_tests` hook (plugins, module, class) is left out; the calls it recorded are a parameter.
- PyCollect.FunctionItem: the keywords taken from the function's `__dict__`, the `callobj` binding, and the yielded-function branch of `Function.__init__` (which only asserts that there is no call spec) are left out.
- PyCollect.CollectGenerated: what `self.obj()` yields is a parameter, a finished sequence of values, so an exception raised by the generator body while it is being iterated is not modelled.
- PyCollect.BaseName: `_getobj`'s final `getattr` on the parent object is left out; only the name it looks up is modelled.
- PyCollect.Metafunc.AddCall: the `funcargs is None or dict` assertion holds by the parameter's type; an id given by the caller is taken as already converted by `str()`.
- EntryPoints.MakeEntryPoints: `sys.version_info`, `sys.platform` and `os.path.basename(sys.executable)` are parameters. `setup()` and `main()` only pass the result on and are not modelled.
- The rest of `pytest/plugin/python.py` (module import, setup and teardown, `FuncargRequest`, failure reprs) and the context files `testing/test_assertrewrite.py`, `py/test/dist/txnode.py` and `py/test/plugin/pytest_iocapture.py` are not part of this model.
