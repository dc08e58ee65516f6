/** Which Compose files are read: the paths given on the command line, each followed by
    its `.override.` sibling when that file exists. File existence is a parameter (the
    set of existing paths); the separator is the Unix one. */
module ConfigurationFiles {
  import opened Wrappers

  /** The last position of `c` among the first `n` characters of `s`. */
  function LastIndexBelow(s: string, c: char, n: nat): (r: Option<nat>)
    requires n <= |s|
    ensures r.Some? ==> r.value < n
  {
    if n == 0 then None
    else if s[n - 1] == c then Some(n - 1)
    else LastIndexBelow(s, c, n - 1)
  }

  /** The last position of `c` in `s`. */
  function LastIndex(s: string, c: char): (r: Option<nat>)
    ensures r.Some? ==> r.value < |s|
  {
    LastIndexBelow(s, c, |s|)
  }

  /** The scan below `n` finds `c` iff it occurs there, at a position after which it does
      not occur below `n`. */
  lemma {:induction false} LastIndexBelowFinds(s: string, c: char, n: nat)
    requires n <= |s|
    ensures LastIndexBelow(s, c, n).None? <==> forall k :: 0 <= k < n ==> s[k] != c
    ensures LastIndexBelow(s, c, n).Some? ==>
              s[LastIndexBelow(s, c, n).value] == c &&
              forall k :: LastIndexBelow(s, c, n).value < k < n ==> s[k] != c
  {
    if n > 0 && s[n - 1] != c {
      LastIndexBelowFinds(s, c, n - 1);
    }
  }

  /** `LastIndex` finds `c` iff it occurs, at a position after which it does not occur. */
  lemma LastIndexFinds(s: string, c: char)
    ensures LastIndex(s, c).None? <==> c !in s
    ensures LastIndex(s, c).Some? ==>
              s[LastIndex(s, c).value] == c && c !in s[LastIndex(s, c).value + 1..]
  {
    LastIndexBelowFinds(s, c, |s|);
    if LastIndex(s, c).Some? {
      var i := LastIndex(s, c).value;
      var after := s[i + 1..];
      assert forall k :: 0 <= k < |after| ==> after[k] == s[i + 1 + k];
    }
  }

  /** The last `c` of `prefix + [c] + rest` is the one after `prefix` when `rest` has none. */
  lemma LastIndexBefore(prefix: string, c: char, rest: string)
    requires c !in rest
    ensures LastIndex(prefix + [c] + rest, c) == Some(|prefix|)
  {
    var s := prefix + [c] + rest;
    assert s[|prefix|] == c;
    LastIndexFinds(s, c);
  }

  /** The last path component (PHP's basename without a suffix). */
  function Basename(path: string): string {
    match LastIndex(path, '/')
    case None => path
    case Some(i) => path[i + 1..]
  }

  /** Everything before the last component: "." for a bare file name, "/" for a file in
      the root directory (PHP's dirname). */
  function Dirname(path: string): string {
    match LastIndex(path, '/')
    case None => "."
    case Some(i) => if i == 0 then "/" else path[..i]
  }

  /** What follows the last dot of a file name, or "" without a dot (PHP's pathinfo
      extension). */
  function Extension(name: string): string {
    match LastIndex(name, '.')
    case None => ""
    case Some(i) => name[i + 1..]
  }

  /** PHP's basename with a suffix: the suffix is dropped when the name ends with it and
      is longer than it. */
  function StripSuffix(name: string, suffix: string): (r: string)
    ensures r == name || (|suffix| < |name| && name == r + suffix)
  {
    if |suffix| < |name| && name[|name| - |suffix|..] == suffix then name[..|name| - |suffix|] else name
  }

  /** Where the override of `path` would be: same directory, the extension-less name
      followed by ".override." and the extension. */
  function OverridePath(path: string): string {
    var name := Basename(path);
    var ext := Extension(name);
    Dirname(path) + "/" + StripSuffix(name, "." + ext) + ".override." + ext
  }

  /** The name after the last slash is the base name, and what precedes it the directory. */
  lemma SplitAtLastSlash(dir: string, name: string)
    requires '/' !in name
    ensures Basename(dir + "/" + name) == name
    ensures dir != [] ==> Dirname(dir + "/" + name) == dir
  {
    assert dir + "/" + name == dir + ['/'] + name;
    LastIndexBefore(dir, '/', name);
  }

  /** The extension of `stem.ext` is `ext`, and stripping ".ext" gives back `stem`. */
  lemma SplitAtLastDot(stem: string, ext: string)
    requires stem != [] && '.' !in ext
    ensures Extension(stem + "." + ext) == ext
    ensures StripSuffix(stem + "." + ext, "." + ext) == stem
  {
    var name := stem + "." + ext;
    assert name == stem + ['.'] + ext;
    LastIndexBefore(stem, '.', ext);
    assert name[|name| - |"." + ext|..] == "." + ext;
  }

  /** `stem.ext` has no slash when neither part has one. */
  lemma DottedNameHasNoSlash(stem: string, ext: string)
    requires '/' !in stem && '/' !in ext
    ensures '/' !in stem + "." + ext
  {
    var name := stem + "." + ext;
    assert forall k :: 0 <= k < |name| ==> name[k] == (if k < |stem| then stem[k] else if k == |stem| then '.' else ext[k - |stem| - 1]);
  }

  /** The override for a file `stem.ext` in directory `dir` is `dir/stem.override.ext`. */
  lemma OverrideInDirectory(dir: string, stem: string, ext: string)
    requires dir != [] && stem != []
    requires '/' !in stem && '/' !in ext && '.' !in ext
    ensures OverridePath(dir + "/" + stem + "." + ext) == dir + "/" + stem + ".override." + ext
  {
    DottedNameHasNoSlash(stem, ext);
    SplitAtLastSlash(dir, stem + "." + ext);
    assert dir + "/" + stem + "." + ext == dir + "/" + (stem + "." + ext);
    SplitAtLastDot(stem, ext);
  }

  /** A bare file name `stem.ext` (the usual docker-compose.yml) has its override in the
      current directory: `./stem.override.ext`. */
  lemma OverrideOfBareName(stem: string, ext: string)
    requires stem != [] && '/' !in stem && '/' !in ext && '.' !in ext
    ensures OverridePath(stem + "." + ext) == "./" + stem + ".override." + ext
  {
    DottedNameHasNoSlash(stem, ext);
    LastIndexFinds(stem + "." + ext, '/');
    assert Basename(stem + "." + ext) == stem + "." + ext;
    assert Dirname(stem + "." + ext) == ".";
    SplitAtLastDot(stem, ext);
  }

  /** A name without a dot keeps its name and gets ".override." appended. */
  lemma OverrideWithoutExtension(dir: string, name: string)
    requires dir != [] && '/' !in name && '.' !in name
    ensures OverridePath(dir + "/" + name) == dir + "/" + name + ".override."
  {
    SplitAtLastSlash(dir, name);
    LastIndexFinds(name, '.');
    assert Extension(name) == "";
    if 1 < |name| {
      assert name[|name| - 1..] != ".";
    }
  }

  /** The override of `path`, if that file exists. */
  function FindOverride(path: string, existing: set<string>): (r: Option<string>)
    ensures r.Some? <==> OverridePath(path) in existing
    ensures r.Some? ==> r.value == OverridePath(path)
  {
    var candidate := OverridePath(path);
    if candidate in existing then Some(candidate) else None
  }

  /** How the collection finds a path's override: the path logic above with file
      existence as `existing`. The list operations below take any such lookup. */
  function Lookup(existing: set<string>): string -> Option<string> {
    path => FindOverride(path, existing)
  }

  /** The files one existing path contributes: itself, then its override unless overrides
      are ignored or the lookup finds none. */
  function Contribution(ignoreOverride: bool, path: string, lookup: string -> Option<string>): seq<string> {
    [path] + (if ignoreOverride then [] else
              match lookup(path)
              case None => []
              case Some(o) => [o])
  }

  /** The files read for `paths`: the contributions in order, or the first path that does
      not exist. */
  function Expand(ignoreOverride: bool, paths: seq<string>, existing: set<string>, lookup: string -> Option<string>)
    : Result<seq<string>, Failure>
    decreases |paths|
  {
    if |paths| == 0 then Ok([])
    else if paths[0] !in existing then Err(FileMissing(paths[0]))
    else match Expand(ignoreOverride, paths[1..], existing, lookup)
      case Err(e) => Err(e)
      case Ok(rest) => Ok(Contribution(ignoreOverride, paths[0], lookup) + rest)
  }

  /** Expanding the paths one after another; a failure in the first part hides the second. */
  function Then(first: Result<seq<string>, Failure>, second: Result<seq<string>, Failure>): Result<seq<string>, Failure> {
    match first
    case Err(e) => Err(e)
    case Ok(a) => match second
      case Err(e) => Err(e)
      case Ok(b) => Ok(a + b)
  }

  /** Expansion works path by path: the files for `a + b` are those for `a` then those
      for `b`, and the first missing path of `a` wins over any of `b`. */
  lemma {:induction false} ExpandAppend(ignoreOverride: bool, a: seq<string>, b: seq<string>, existing: set<string>,
                                        lookup: string -> Option<string>)
    ensures Expand(ignoreOverride, a + b, existing, lookup)
            == Then(Expand(ignoreOverride, a, existing, lookup), Expand(ignoreOverride, b, existing, lookup))
    decreases |a|
  {
    if |a| == 0 {
      assert a + b == b;
      var second := Expand(ignoreOverride, b, existing, lookup);
      if second.Ok? {
        assert [] + second.value == second.value;
      }
    } else if a[0] in existing {
      assert (a + b)[0] == a[0];
      assert (a + b)[1..] == a[1..] + b;
      ExpandAppend(ignoreOverride, a[1..], b, existing, lookup);
      var head := Contribution(ignoreOverride, a[0], lookup);
      var tail := Expand(ignoreOverride, a[1..], existing, lookup);
      var second := Expand(ignoreOverride, b, existing, lookup);
      if tail.Ok? && second.Ok? {
        assert head + (tail.value + second.value) == (head + tail.value) + second.value;
      }
    } else {
      assert (a + b)[0] == a[0];
    }
  }

  /** Expansion fails iff some path is missing, and then it names the first missing one. */
  lemma {:induction false} ExpandFailsOnFirstMissing(ignoreOverride: bool, paths: seq<string>, existing: set<string>,
                                                     lookup: string -> Option<string>)
    ensures Expand(ignoreOverride, paths, existing, lookup).Err? <==> exists k :: 0 <= k < |paths| && paths[k] !in existing
    ensures Expand(ignoreOverride, paths, existing, lookup).Err? ==>
              exists k :: 0 <= k < |paths| && paths[k] !in existing &&
                Expand(ignoreOverride, paths, existing, lookup).error == FileMissing(paths[k]) &&
                forall j :: 0 <= j < k ==> paths[j] in existing
    decreases |paths|
  {
    if |paths| > 0 && paths[0] in existing {
      var tail := paths[1..];
      ExpandFailsOnFirstMissing(ignoreOverride, tail, existing, lookup);
      if exists k :: 0 <= k < |paths| && paths[k] !in existing {
        var k :| 0 <= k < |paths| && paths[k] !in existing;
        assert tail[k - 1] == paths[k];
      }
      if Expand(ignoreOverride, paths, existing, lookup).Err? {
        var k :| 0 <= k < |tail| && tail[k] !in existing &&
                 Expand(ignoreOverride, tail, existing, lookup).error == FileMissing(tail[k]) &&
                 forall j :: 0 <= j < k ==> tail[j] in existing;
        assert paths[k + 1] == tail[k];
        forall j | 0 <= j < k + 1 ensures paths[j] in existing {
          if j > 0 {
            assert paths[j] == tail[j - 1];
          }
        }
      }
    }
  }

  /** Every file in a successful expansion is one of the paths, all of which exist, or
      an override the lookup found for one of them. */
  lemma {:induction false} ExpandOnlyFound(ignoreOverride: bool, paths: seq<string>, existing: set<string>,
                                           lookup: string -> Option<string>)
    requires Expand(ignoreOverride, paths, existing, lookup).Ok?
    ensures forall p :: p in paths ==> p in existing
    ensures forall f :: f in Expand(ignoreOverride, paths, existing, lookup).value ==>
              f in paths || exists p :: p in paths && lookup(p) == Some(f)
    decreases |paths|
  {
    if |paths| > 0 {
      var tail := paths[1..];
      ExpandOnlyFound(ignoreOverride, tail, existing, lookup);
      var files := Expand(ignoreOverride, paths, existing, lookup).value;
      var rest := Expand(ignoreOverride, tail, existing, lookup).value;
      assert files == Contribution(ignoreOverride, paths[0], lookup) + rest;
      forall p | p in paths ensures p in existing {
        if p != paths[0] {
          assert p in tail;
        }
      }
      forall f | f in files
        ensures f in paths || exists p :: p in paths && lookup(p) == Some(f)
      {
        if f in rest {
          if f !in paths {
            var p :| p in tail && lookup(p) == Some(f);
            assert p in paths;
          }
        } else if f != paths[0] {
          assert lookup(paths[0]) == Some(f);
        }
      }
    }
  }

  /** With the engine's own lookup, every file read exists, and each is one of the paths
      or the override of one of them. */
  lemma FilesExist(ignoreOverride: bool, paths: seq<string>, existing: set<string>)
    requires Expand(ignoreOverride, paths, existing, Lookup(existing)).Ok?
    ensures forall f :: f in Expand(ignoreOverride, paths, existing, Lookup(existing)).value ==>
              f in existing && (f in paths || exists p :: p in paths && f == OverridePath(p))
  {
    ExpandOnlyFound(ignoreOverride, paths, existing, Lookup(existing));
    forall f | f in Expand(ignoreOverride, paths, existing, Lookup(existing)).value
      ensures f in existing && (f in paths || exists p :: p in paths && f == OverridePath(p))
    {
      if f !in paths {
        var p :| p in paths && Lookup(existing)(p) == Some(f);
        assert FindOverride(p, existing) == Some(f);
      }
    }
  }

  /** With overrides ignored, the files are exactly the paths, in order. */
  lemma {:induction false} ExpandIgnoringOverrides(paths: seq<string>, existing: set<string>, lookup: string -> Option<string>)
    requires forall k :: 0 <= k < |paths| ==> paths[k] in existing
    ensures Expand(true, paths, existing, lookup) == Ok(paths)
    decreases |paths|
  {
    if |paths| > 0 {
      assert forall k :: 0 <= k < |paths[1..]| ==> paths[1..][k] == paths[k + 1];
      ExpandIgnoringOverrides(paths[1..], existing, lookup);
      assert Contribution(true, paths[0], lookup) == [paths[0]];
      assert [paths[0]] + paths[1..] == paths;
    }
  }

  /** Positions in a list that starts with a pair. */
  lemma AfterPair<T>(x: T, y: T, rest: seq<T>, k: nat)
    requires 0 < k && 2 * k + 1 < 2 + |rest|
    ensures ([x, y] + rest)[2 * k] == rest[2 * (k - 1)]
    ensures ([x, y] + rest)[2 * k + 1] == rest[2 * (k - 1) + 1]
  {
  }

  /** When every path has an override, the files alternate: each path is immediately
      followed by its override. */
  lemma {:induction false} ExpandPairsOverrides(paths: seq<string>, existing: set<string>, lookup: string -> Option<string>)
    requires forall k :: 0 <= k < |paths| ==> paths[k] in existing && lookup(paths[k]).Some?
    ensures Expand(false, paths, existing, lookup).Ok?
    ensures |Expand(false, paths, existing, lookup).value| == 2 * |paths|
    ensures forall k :: 0 <= k < |paths| ==>
              Expand(false, paths, existing, lookup).value[2 * k] == paths[k] &&
              Some(Expand(false, paths, existing, lookup).value[2 * k + 1]) == lookup(paths[k])
    decreases |paths|
  {
    if |paths| > 0 {
      var tail := paths[1..];
      assert forall k :: 0 <= k < |tail| ==> tail[k] == paths[k + 1];
      ExpandPairsOverrides(tail, existing, lookup);
      var rest := Expand(false, tail, existing, lookup).value;
      var found := lookup(paths[0]).value;
      var first := [paths[0], found];
      assert Contribution(false, paths[0], lookup) == first;
      var files := first + rest;
      assert Expand(false, paths, existing, lookup) == Ok(files);
      forall k | 0 <= k < |paths|
        ensures files[2 * k] == paths[k] && Some(files[2 * k + 1]) == lookup(paths[k])
      {
        if k > 0 {
          AfterPair(paths[0], found, rest, k);
          assert tail[k - 1] == paths[k];
        }
      }
    }
  }

  /** One existing path expands to its contribution. */
  lemma ExpandOne(ignoreOverride: bool, path: string, existing: set<string>, lookup: string -> Option<string>)
    requires path in existing
    ensures Expand(ignoreOverride, [path], existing, lookup) == Ok(Contribution(ignoreOverride, path, lookup))
  {
    assert [path][1..] == [];
    assert Contribution(ignoreOverride, path, lookup) + [] == Contribution(ignoreOverride, path, lookup);
  }

  /** One more existing path adds its contribution to the files of the paths before it. */
  lemma ExpandStep(ignoreOverride: bool, paths: seq<string>, k: nat, existing: set<string>, lookup: string -> Option<string>)
    requires k < |paths| && paths[k] in existing
    ensures Expand(ignoreOverride, paths[..k + 1], existing, lookup)
            == Then(Expand(ignoreOverride, paths[..k], existing, lookup), Ok(Contribution(ignoreOverride, paths[k], lookup)))
  {
    ExpandAppend(ignoreOverride, paths[..k], [paths[k]], existing, lookup);
    assert paths[..k + 1] == paths[..k] + [paths[k]];
    ExpandOne(ignoreOverride, paths[k], existing, lookup);
  }

  /** A missing path fails the whole expansion when the paths before it exist. */
  lemma ExpandStopsAt(ignoreOverride: bool, paths: seq<string>, k: nat, existing: set<string>, lookup: string -> Option<string>)
    requires k < |paths| && paths[k] !in existing
    requires Expand(ignoreOverride, paths[..k], existing, lookup).Ok?
    ensures Expand(ignoreOverride, paths, existing, lookup) == Err(FileMissing(paths[k]))
  {
    ExpandAppend(ignoreOverride, paths[..k], paths[k..], existing, lookup);
    assert paths[..k] + paths[k..] == paths;
    assert paths[k..][0] == paths[k];
  }

  /** What the loop appends for one existing path: the path, then its override unless
      overrides are ignored or it does not exist. */
  method Contribute(ignoreOverride: bool, path: string, existing: set<string>) returns (added: seq<string>)
    ensures added == Contribution(ignoreOverride, path, Lookup(existing))
  {
    added := [path];
    if !ignoreOverride {
      var override := FindOverride(path, existing);
      if override.Some? {
        added := added + [override.value];
      }
    }
  }

  /** The collection loop: each path must exist; it is appended, then its override when
      overrides are not ignored and the override exists. */
  method FindConfigurationFiles(ignoreOverride: bool, paths: seq<string>, existing: set<string>)
    returns (r: Result<seq<string>, Failure>)
    ensures r == Expand(ignoreOverride, paths, existing, Lookup(existing))
  {
    var files := [];
    var k := 0;
    while k < |paths|
      invariant 0 <= k <= |paths|
      invariant Expand(ignoreOverride, paths[..k], existing, Lookup(existing)) == Ok(files)
    {
      var path := paths[k];
      if path !in existing {
        ExpandStopsAt(ignoreOverride, paths, k, existing, Lookup(existing));
        return Err(FileMissing(path));
      }
      ExpandStep(ignoreOverride, paths, k, existing, Lookup(existing));
      var added := Contribute(ignoreOverride, path, existing);
      files := files + added;
      k := k + 1;
    }
    assert paths[..k] == paths;
    r := Ok(files);
  }
}
