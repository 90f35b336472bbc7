/**
 * The console-script entry points `setup.py` registers: which `py.test*`
 * commands an interpreter gets, and the sorted `"name = target"` lines
 * handed to setuptools as `console_scripts`.
 *
 * The interpreter facts (`sys.version_info`, `sys.platform`, the base
 * name of `sys.executable`) and the order `dict.keys()` lists the points
 * in are parameters.
 */
module EntryPoints {
  import opened PyStr

  /** the first two components of `sys.version_info` */
  datatype VersionInfo = VersionInfo(major: nat, minor: nat)

  /** the module every console script runs */
  const Target: string := "pytest:__main__"

  /**
   * `cmdline_entrypoints(versioninfo, platform, basename)`; the ensures give
   * the three maps it builds, and `CmdlineEntrypointsShape` what they share.
   */
  function CmdlineEntrypoints(v: VersionInfo, platform: string, basename: string): (r: map<string, string>)
    ensures StartsWith(platform, "java") ==> r == map["py.test-jython" := Target]
    ensures !StartsWith(platform, "java") && StartsWith(basename, "pypy") ==>
      r == map["py.test-" + basename := Target, "py.test" := Target]
    ensures !StartsWith(platform, "java") && !StartsWith(basename, "pypy") ==>
      r == map["py.test-" + NatToString(v.major) + "." + NatToString(v.minor) := Target, "py.test" := Target]
  {
    if StartsWith(platform, "java") then map["py.test-jython" := Target]
    else
      var points :=
        if StartsWith(basename, "pypy") then map["py.test-" + basename := Target]
        else map["py.test-" + NatToString(v.major) + "." + NatToString(v.minor) := Target];
      points["py.test" := Target]
  }

  /**
   * Every interpreter gets only scripts running `pytest:__main__`; one
   * that is not Jython gets exactly two, the plain `py.test` among them.
   */
  lemma CmdlineEntrypointsShape(v: VersionInfo, platform: string, basename: string)
    ensures var r := CmdlineEntrypoints(v, platform, basename);
      && (forall k :: k in r ==> r[k] == Target)
      && (StartsWith(platform, "java") ==> |r| == 1 && "py.test" !in r)
      && (!StartsWith(platform, "java") ==> |r| == 2 && "py.test" in r)
  {
    var r := CmdlineEntrypoints(v, platform, basename);
    if !StartsWith(platform, "java") {
      var other := if StartsWith(basename, "pypy") then "py.test-" + basename
        else "py.test-" + NatToString(v.major) + "." + NatToString(v.minor);
      assert |other| > |"py.test"|;
      assert r.Keys == {other, "py.test"};
    } else {
      assert r.Keys == {"py.test-jython"};
    }
  }

  /* ---------------------------------------------------------------------
   * list.sort() on strings
   * ------------------------------------------------------------------- */

  /** each element is smaller than the next */
  predicate StrictlySorted(xs: seq<string>) {
    forall i, j :: 0 <= i < j < |xs| ==> StrLess(xs[i], xs[j])
  }

  /** ascending, equal neighbours allowed */
  predicate Sorted(xs: seq<string>) {
    forall i, j :: 0 <= i < j < |xs| ==> !StrLess(xs[j], xs[i])
  }

  /** A sorted list stays sorted with an element no larger than any of it in front. */
  lemma SortedCons(y: string, xs: seq<string>)
    requires Sorted(xs)
    requires forall j :: 0 <= j < |xs| ==> !StrLess(xs[j], y)
    ensures Sorted([y] + xs)
  {
    var r := [y] + xs;
    forall i, j | 0 <= i < j < |r| ensures !StrLess(r[j], r[i]) {
      assert r[j] == xs[j - 1];
      if i > 0 {
        assert r[i] == xs[i - 1];
      }
    }
  }

  /** `x` goes in front when the first element is not smaller than it. */
  lemma InsertFront(x: string, xs: seq<string>)
    requires Sorted(xs)
    requires xs != [] ==> !StrLess(xs[0], x)
    ensures Sorted([x] + xs)
  {
    forall j | 0 <= j < |xs| ensures !StrLess(xs[j], x) {
      if StrLess(xs[j], x) {
        assert j > 0 && !StrLess(xs[j], xs[0]);
        StrLessTotal(xs[0], xs[j]);
        StrLessTransitive(xs[0], xs[j], x);
      }
    }
    SortedCons(x, xs);
  }

  /** Otherwise the first element stays in front of `x` inserted into the rest. */
  lemma InsertBehind(x: string, xs: seq<string>, rest: seq<string>)
    requires Sorted(xs) && xs != [] && StrLess(xs[0], x)
    requires Sorted(rest) && multiset(rest) == multiset(xs[1..]) + multiset{x}
    ensures Sorted([xs[0]] + rest)
  {
    forall j | 0 <= j < |rest| ensures !StrLess(rest[j], xs[0]) {
      assert rest[j] in multiset(rest);
      if rest[j] == x {
        StrLessIrreflexive(x);
        if StrLess(x, xs[0]) { StrLessTransitive(x, xs[0], x); }
      } else {
        assert rest[j] in multiset(xs[1..]);
        var k :| 0 <= k < |xs[1..]| && xs[1..][k] == rest[j];
        assert xs[k + 1] == rest[j];
      }
    }
    SortedCons(xs[0], rest);
  }

  /** `x` put into a sorted list before the first element not smaller than it */
  function Insert(x: string, xs: seq<string>): (r: seq<string>)
    requires Sorted(xs)
    ensures Sorted(r)
    ensures multiset(r) == multiset(xs) + multiset{x}
  {
    if xs == [] || !StrLess(xs[0], x) then
      InsertFront(x, xs);
      [x] + xs
    else
      var rest := Insert(x, xs[1..]);
      assert multiset(xs) == multiset{xs[0]} + multiset(xs[1..]) by {
        assert xs == [xs[0]] + xs[1..];
      }
      InsertBehind(x, xs, rest);
      [xs[0]] + rest
  }

  /** `sorted(xs)`: an insertion sort by the code-point order of `str` */
  function Sort(xs: seq<string>): (r: seq<string>)
    ensures Sorted(r)
    ensures multiset(r) == multiset(xs)
  {
    if xs == [] then []
    else
      assert xs == [xs[0]] + xs[1..];
      Insert(xs[0], Sort(xs[1..]))
  }

  /** A sorted list without repeats is strictly sorted. */
  lemma SortedDistinct(xs: seq<string>)
    requires Sorted(xs)
    requires forall i, j :: 0 <= i < j < |xs| ==> xs[i] != xs[j]
    ensures StrictlySorted(xs)
  {
    forall i, j | 0 <= i < j < |xs| ensures StrLess(xs[i], xs[j]) {
      StrLessTotal(xs[i], xs[j]);
    }
  }

  /**
   * Two strictly sorted lists of the same elements are the same list, so
   * sorting the keys undoes whatever order `dict.keys()` listed them in.
   */
  lemma {:induction false} StrictlySortedUnique(xs: seq<string>, ys: seq<string>)
    requires StrictlySorted(xs) && StrictlySorted(ys)
    requires forall s :: s in xs <==> s in ys
    ensures xs == ys
  {
    assert xs != [] ==> xs[0] in ys;
    assert ys != [] ==> ys[0] in xs;
    if xs != [] && ys != [] {
      if xs[0] != ys[0] {
        assert ys[0] in xs;
        assert xs[0] in ys;
        var i :| 0 <= i < |xs| && xs[i] == ys[0];
        var j :| 0 <= j < |ys| && ys[j] == xs[0];
        assert i > 0 && j > 0;
        StrLessTransitive(xs[0], ys[0], xs[0]);
        StrLessIrreflexive(xs[0]);
      }
      assert xs == [xs[0]] + xs[1..] && ys == [ys[0]] + ys[1..];
      forall s ensures s in xs[1..] <==> s in ys[1..] {
        if s in xs[1..] {
          var i :| 0 <= i < |xs[1..]| && xs[1..][i] == s;
          assert StrLess(xs[0], xs[i + 1]);
          StrLessIrreflexive(s);
          assert s in ys && s != ys[0];
        }
        if s in ys[1..] {
          var j :| 0 <= j < |ys[1..]| && ys[1..][j] == s;
          assert StrLess(ys[0], ys[j + 1]);
          StrLessIrreflexive(s);
          assert s in xs && s != xs[0];
        }
      }
      StrictlySortedUnique(xs[1..], ys[1..]);
    }
  }

  /* ---------------------------------------------------------------------
   * make_entry_points
   * ------------------------------------------------------------------- */

  /** `list(points.keys())` names every key once */
  ghost predicate ListsKeys(keys: seq<string>, points: map<string, string>) {
    && (forall i, j :: 0 <= i < j < |keys| ==> keys[i] != keys[j])
    && (forall k :: k in keys <==> k in points)
  }

  /** `"%s = %s" % (key, value)` */
  function ScriptLine(key: string, value: string): string {
    key + " = " + value
  }

  /** the console-script lines for the keys in the given order */
  function ScriptLines(keys: seq<string>, points: map<string, string>): (r: seq<string>)
    requires forall k :: k in keys ==> k in points
    ensures |r| == |keys|
    ensures forall i :: 0 <= i < |keys| ==> r[i] == ScriptLine(keys[i], points[keys[i]])
  {
    if keys == [] then [] else [ScriptLine(keys[0], points[keys[0]])] + ScriptLines(keys[1..], points)
  }

  /**
   * `make_entry_points()`, with `keys` the order in which `dict.keys()`
   * lists the points: the `console_scripts` lines, one per key sorted.
   */
  function MakeEntryPoints(v: VersionInfo, platform: string, basename: string, keys: seq<string>)
    : (r: map<string, seq<string>>)
    requires ListsKeys(keys, CmdlineEntrypoints(v, platform, basename))
    ensures r.Keys == {"console_scripts"}
  {
    var points := CmdlineEntrypoints(v, platform, basename);
    var sorted := Sort(keys);
    SortKeepsElements(keys);
    map["console_scripts" := ScriptLines(sorted, points)]
  }

  /** Sorting keeps exactly the elements it was given. */
  lemma SortKeepsElements(xs: seq<string>)
    ensures forall k :: k in Sort(xs) <==> k in xs
  {
    forall k ensures k in Sort(xs) <==> k in xs {
      assert k in Sort(xs) <==> k in multiset(Sort(xs));
      assert k in xs <==> k in multiset(xs);
    }
  }

  /** Sorting a listing of the keys gives them in strictly ascending order. */
  lemma SortListsKeys(keys: seq<string>, points: map<string, string>)
    requires ListsKeys(keys, points)
    ensures StrictlySorted(Sort(keys))
    ensures forall k :: k in Sort(keys) <==> k in points
  {
    var sorted := Sort(keys);
    SortKeepsElements(keys);
    forall i, j | 0 <= i < j < |sorted| ensures sorted[i] != sorted[j] {
      if sorted[i] == sorted[j] {
        DuplicateCount(sorted, i, j);
        var a :| 0 <= a < |keys| && keys[a] == sorted[i];
        DistinctCount(keys, a);
      }
    }
    SortedDistinct(sorted);
  }

  /**
   * The console scripts are one `"key = pytest:__main__"` line per entry
   * point, in ascending order of the keys.
   */
  lemma MakeEntryPointsSpec(v: VersionInfo, platform: string, basename: string, keys: seq<string>)
    requires ListsKeys(keys, CmdlineEntrypoints(v, platform, basename))
    ensures var points := CmdlineEntrypoints(v, platform, basename);
      var lines := MakeEntryPoints(v, platform, basename, keys)["console_scripts"];
      && StrictlySorted(Sort(keys))
      && (forall k :: k in Sort(keys) <==> k in points)
      && |lines| == |Sort(keys)|
      && (forall i :: 0 <= i < |lines| ==> lines[i] == ScriptLine(Sort(keys)[i], Target))
  {
    var points := CmdlineEntrypoints(v, platform, basename);
    CmdlineEntrypointsShape(v, platform, basename);
    SortListsKeys(keys, points);
    var sorted := Sort(keys);
    assert MakeEntryPoints(v, platform, basename, keys)["console_scripts"] == ScriptLines(sorted, points);
    LinesToTarget(sorted, points);
  }

  /** When every point runs the target, each line names its key and the target. */
  lemma LinesToTarget(keys: seq<string>, points: map<string, string>)
    requires forall k :: k in keys ==> k in points
    requires forall k :: k in points ==> points[k] == Target
    ensures forall i :: 0 <= i < |keys| ==> ScriptLines(keys, points)[i] == ScriptLine(keys[i], Target)
  {
  }

  /** An element at two positions occurs at least twice. */
  lemma DuplicateCount(xs: seq<string>, i: nat, j: nat)
    requires i < j < |xs| && xs[i] == xs[j]
    ensures multiset(xs)[xs[i]] >= 2
  {
    var x := xs[i];
    assert xs == xs[..i] + [x] + xs[i + 1..j] + [x] + xs[j + 1..];
  }

  /** In a list without repeats every element occurs once. */
  lemma {:induction false} DistinctCount(xs: seq<string>, a: nat)
    requires a < |xs|
    requires forall i, j :: 0 <= i < j < |xs| ==> xs[i] != xs[j]
    ensures multiset(xs)[xs[a]] == 1
  {
    var x := xs[a];
    assert xs == xs[..a] + [x] + xs[a + 1..];
    assert x !in xs[..a] && x !in xs[a + 1..];
  }

  /** The lines do not depend on the order `dict.keys()` lists the points in. */
  lemma MakeEntryPointsOrderFree(v: VersionInfo, platform: string, basename: string, k1: seq<string>, k2: seq<string>)
    requires ListsKeys(k1, CmdlineEntrypoints(v, platform, basename))
    requires ListsKeys(k2, CmdlineEntrypoints(v, platform, basename))
    ensures MakeEntryPoints(v, platform, basename, k1) == MakeEntryPoints(v, platform, basename, k2)
  {
    var points := CmdlineEntrypoints(v, platform, basename);
    SortListsKeys(k1, points);
    SortListsKeys(k2, points);
    StrictlySortedUnique(Sort(k1), Sort(k2));
  }
}
