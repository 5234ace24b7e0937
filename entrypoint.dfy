/**
 * Game discovery and installation helpers (dweam/utils/entrypoint.py):
 * platform paths, the pip install spec strings, the `pip show` location
 * parse, the `module:Class` entrypoint split and the ordered source fallback
 * with its overriding merge into the catalogue.
 *
 * The environment (environment variables, the filesystem, pip, module
 * import, TOML loading) is given as parameters: values for what is read,
 * functions for what is looked up.
 */
module Entrypoint {
  import opened Wrappers

  // ---------------------------------------------------------------------
  // Paths

  /** A filesystem path as its components; `p / part` appends one. */
  datatype Path = Path(parts: seq<string>)

  function Join(p: Path, part: string): Path
  {
    Path(p.parts + [part])
  }

  /** `str(path)`: the components joined with "/". */
  function Render(p: Path): string
    decreases |p.parts|
  {
    if p.parts == [] then ""
    else if |p.parts| == 1 then p.parts[0]
    else Render(Path(p.parts[..|p.parts| - 1])) + "/" + p.parts[|p.parts| - 1]
  }

  datatype Platform = Win32 | Posix

  /** `get_pip_path` (dweam/utils/entrypoint.py:114-116). */
  function PipPath(venv: Path, platform: Platform): (r: Path)
    ensures |r.parts| == |venv.parts| + 2 && r.parts[..|venv.parts|] == venv.parts
    ensures r.parts[|venv.parts|..] == (if platform == Win32 then ["Scripts", "pip.exe"] else ["bin", "pip"])
  {
    if platform == Win32 then Join(Join(venv, "Scripts"), "pip.exe") else Join(Join(venv, "bin"), "pip")
  }

  /** `get_cache_dir` (dweam/utils/entrypoint.py:106-111): `environ` is the process environment. */
  function CacheDir(environ: map<string, string>, home: Path): (r: Path)
    ensures "CACHE_DIR" in environ ==> r == Path([environ["CACHE_DIR"]])
    ensures "CACHE_DIR" !in environ ==> r.parts == home.parts + [".dweam", "cache"]
  {
    if "CACHE_DIR" in environ then Path([environ["CACHE_DIR"]])
    else Join(Join(home, ".dweam"), "cache")
  }

  /**
   * `evaluate_markers` (dweam/utils/entrypoint.py:119-125): a missing or
   * empty marker holds; any other is decided by the marker evaluator.
   */
  function EvaluateMarkers(markers: Option<string>, evaluate: string -> bool): (r: bool)
    ensures markers == None || markers == Some("") ==> r
    ensures markers.Some? && markers.value != "" ==> r == evaluate(markers.value)
  {
    match markers
    case None => true
    case Some(m) => if m == "" then true else evaluate(m)
  }

  // ---------------------------------------------------------------------
  // Install spec strings

  /** `git+{git}@{branch}#egg={name}` */
  function GitSpec(git: string, branch: string, name: string): (r: string)
    ensures |r| == |git| + |branch| + |name| + 10
    ensures r[..4] == "git+" && r[|r| - |name| - 5..] == "#egg=" + name
  {
    "git+" + git + "@" + branch + "#egg=" + name
  }

  /** `{name}=={version}` */
  function PyPISpec(name: string, version: string): (r: string)
    ensures |r| == |name| + |version| + 2
    ensures r[..|name|] == name && r[|name|..|name| + 2] == "==" && r[|name| + 2..] == version
  {
    name + "==" + version
  }

  /** The first index of `c` in `s`, or `|s|`. */
  function IndexOf(s: string, c: char): (r: nat)
    ensures r <= |s| && c !in s[..r]
    ensures r < |s| ==> s[r] == c
  {
    if s == [] || s[0] == c then 0
    else
      var k := IndexOf(s[1..], c);
      assert s[..k + 1] == [s[0]] + s[1..][..k];
      k + 1
  }

  /** A git spec names its repository, branch and package unambiguously when the repository has no '@' and the branch no '#'. */
  lemma GitSpecInjective(g1: string, b1: string, n1: string, g2: string, b2: string, n2: string)
    requires '@' !in g1 && '@' !in g2 && '#' !in b1 && '#' !in b2
    requires GitSpec(g1, b1, n1) == GitSpec(g2, b2, n2)
    ensures g1 == g2 && b1 == b2 && n1 == n2
  {
    var r1, r2 := "#egg=" + n1, "#egg=" + n2;
    var q1, q2 := "@" + (b1 + r1), "@" + (b2 + r2);
    GitSpecShape(g1, b1, n1);
    GitSpecShape(g2, b2, n2);
    DropPrefix("git+", g1 + q1, g2 + q2);
    SplitAtFirst(g1, q1, g2, q2, '@');
    DropPrefix("@", b1 + r1, b2 + r2);
    SplitAtFirst(b1, r1, b2, r2, '#');
    DropPrefix("#egg=", n1, n2);
  }

  lemma GitSpecShape(g: string, b: string, n: string)
    ensures GitSpec(g, b, n) == "git+" + (g + ("@" + (b + ("#egg=" + n))))
  {
  }

  lemma DropPrefix(p: string, x: string, y: string)
    requires p + x == p + y
    ensures x == y
  {
    assert x == (p + x)[|p|..] && y == (p + y)[|p|..];
  }

  /** A PyPI spec names its package and version unambiguously when the name has no '='. */
  lemma PyPISpecInjective(n1: string, v1: string, n2: string, v2: string)
    requires '=' !in n1 && '=' !in n2
    requires PyPISpec(n1, v1) == PyPISpec(n2, v2)
    ensures n1 == n2 && v1 == v2
  {
    assert PyPISpec(n1, v1) == n1 + ("==" + v1) && PyPISpec(n2, v2) == n2 + ("==" + v2);
    SplitAtFirst(n1, "==" + v1, n2, "==" + v2, '=');
    assert ("==" + v1)[2..] == v1 && ("==" + v2)[2..] == v2;
  }

  /** Two strings that each begin at their first `c` split the same way. */
  lemma SplitAtFirst(a1: string, b1: string, a2: string, b2: string, c: char)
    requires c !in a1 && c !in a2 && b1 != [] && b2 != [] && b1[0] == c && b2[0] == c
    requires a1 + b1 == a2 + b2
    ensures a1 == a2 && b1 == b2
  {
    IndexOfPrefix(a1, b1, c);
    IndexOfPrefix(a2, b2, c);
    assert |a1| == |a2|;
    assert a1 == (a1 + b1)[..|a1|] && a2 == (a2 + b2)[..|a2|];
    assert b1 == (a1 + b1)[|a1|..] && b2 == (a2 + b2)[|a2|..];
  }

  lemma {:induction false} IndexOfPrefix(a: string, b: string, c: char)
    requires c !in a && b != [] && b[0] == c
    ensures IndexOf(a + b, c) == |a|
    decreases |a|
  {
    if a == [] {
      assert a + b == b;
    } else {
      assert (a + b)[1..] == a[1..] + b;
      IndexOfPrefix(a[1..], b, c);
    }
  }

  // ---------------------------------------------------------------------
  // `pip show` output

  const EditablePrefix: string := "Editable project location: "
  const LocationPrefix: string := "Location: "

  predicate StartsWith(s: string, p: string)
  {
    |p| <= |s| && s[..|p|] == p
  }

  /** A ": " separator starts at `i`. */
  predicate SepAt(s: string, i: int)
  {
    0 <= i && i + 1 < |s| && s[i] == ':' && s[i + 1] == ' '
  }

  /** The first separator at or after `from`, or `|s|`. */
  function NextSep(s: string, from: nat): (r: nat)
    requires from <= |s|
    ensures from <= r <= |s|
    ensures r < |s| ==> SepAt(s, r)
    ensures forall j :: from <= j < r ==> !SepAt(s, j)
    decreases |s| - from
  {
    if from == |s| then |s|
    else if SepAt(s, from) then from
    else NextSep(s, from + 1)
  }

  /** `line.split(": ")[1]`: the text between the first and the second separator (or the end). */
  function SecondField(line: string): string
  {
    var a := NextSep(line, 0);
    if a == |line| then ""
    else line[a + 2..NextSep(line, a + 2)]
  }

  /** The second field of the last line starting with `prefix`. */
  function LastField(lines: seq<string>, prefix: string): Option<string>
  {
    if lines == [] then None
    else if StartsWith(lines[|lines| - 1], prefix) then Some(SecondField(lines[|lines| - 1]))
    else LastField(lines[..|lines| - 1], prefix)
  }

  /** `Path(field) / name`, when there is a field. */
  function Under(field: Option<string>, name: string): Option<Path>
  {
    match field
    case None => None
    case Some(f) => Some(Join(Path([f]), name))
  }

  /** The location `install_game_source` takes from `pip show`: the editable one if any, else the plain one. */
  function PipShowLocation(lines: seq<string>, name: string): Option<Path>
  {
    if LastField(lines, EditablePrefix).Some? then Under(LastField(lines, EditablePrefix), name)
    else Under(LastField(lines, LocationPrefix), name)
  }

  /** The location parse over the lines of `pip show` output (dweam/utils/entrypoint.py:196-208). */
  method ParsePipShow(lines: seq<string>, name: string) returns (r: Option<Path>)
    ensures r == PipShowLocation(lines, name)
  {
    var location: Option<Path> := None;
    var editable: Option<Path> := None;
    for i := 0 to |lines|
      invariant editable == Under(LastField(lines[..i], EditablePrefix), name)
      invariant location == Under(LastField(lines[..i], LocationPrefix), name)
    {
      var line := lines[i];
      assert lines[..i + 1][..i] == lines[..i];
      if StartsWith(line, EditablePrefix) {
        assert !StartsWith(line, LocationPrefix) by { assert line[0] == 'E'; }
        editable := Some(Join(Path([SecondField(line)]), name));
      } else if StartsWith(line, LocationPrefix) {
        location := Some(Join(Path([SecondField(line)]), name));
      }
    }
    assert lines[..|lines|] == lines;
    if editable.Some? {
      r := editable;
    } else if location.Some? {
      r := location;
    } else {
      r := None;
    }
  }

  /** There is no field for `prefix` iff no line starts with it. */
  lemma {:induction false} LastFieldNone(lines: seq<string>, prefix: string)
    ensures LastField(lines, prefix).None? <==> forall i :: 0 <= i < |lines| ==> !StartsWith(lines[i], prefix)
  {
    if lines != [] {
      var n := |lines| - 1;
      LastFieldNone(lines[..n], prefix);
      assert forall i :: 0 <= i < n ==> lines[i] == lines[..n][i];
    }
  }

  /** The index of the line a field comes from: it starts with `prefix` and no later line does. */
  lemma {:induction false} LastFieldLine(lines: seq<string>, prefix: string) returns (i: nat)
    requires LastField(lines, prefix).Some?
    ensures i < |lines| && StartsWith(lines[i], prefix)
    ensures LastField(lines, prefix).value == SecondField(lines[i])
    ensures forall j :: i < j < |lines| ==> !StartsWith(lines[j], prefix)
  {
    var n := |lines| - 1;
    if StartsWith(lines[n], prefix) {
      i := n;
    } else {
      var front := lines[..n];
      i := LastFieldLine(front, prefix);
      assert lines[i] == front[i];
      forall j | i < j < |lines|
        ensures !StartsWith(lines[j], prefix)
      {
        if j < n {
          assert lines[j] == front[j];
        }
      }
    }
  }

  /** The last field for `prefix` comes from the last line starting with it; there is none iff no line does. */
  lemma LastFieldIsLast(lines: seq<string>, prefix: string)
    ensures LastField(lines, prefix).None? <==> forall i :: 0 <= i < |lines| ==> !StartsWith(lines[i], prefix)
    ensures LastField(lines, prefix).Some? ==>
      exists i :: 0 <= i < |lines| && StartsWith(lines[i], prefix)
        && LastField(lines, prefix).value == SecondField(lines[i])
        && forall j :: i < j < |lines| ==> !StartsWith(lines[j], prefix)
  {
    LastFieldNone(lines, prefix);
    if LastField(lines, prefix).Some? {
      var i := LastFieldLine(lines, prefix);
    }
  }

  /** A line `prefix + value`, with no further separator in `value`, has `value` as its field. */
  lemma SecondFieldOfLine(key: string, value: string)
    requires ':' !in key
    requires forall j :: !SepAt(value, j)
    ensures SecondField(key + ": " + value) == value
  {
    var line := key + ": " + value;
    forall j | 0 <= j < |key|
      ensures !SepAt(line, j)
    {
      assert line[j] == key[j];
    }
    assert SepAt(line, |key|);
    var a := NextSep(line, 0);
    assert a == |key|;
    assert line[a + 2..] == value;
    forall j | a + 2 <= j < |line|
      ensures !SepAt(line, j)
    {
      assert !SepAt(value, j - a - 2);
    }
    assert NextSep(line, a + 2) == |line|;
    assert line[a + 2..] == value;
  }

  /**
   * The parse prefers the editable location; it yields a location iff some
   * line carries one; the location is the named package under the field.
   */
  lemma PipShowPrefersEditable(lines: seq<string>, name: string)
    ensures PipShowLocation(lines, name).None? <==>
      forall i :: 0 <= i < |lines| ==> !StartsWith(lines[i], EditablePrefix) && !StartsWith(lines[i], LocationPrefix)
    ensures (exists i :: 0 <= i < |lines| && StartsWith(lines[i], EditablePrefix)) ==>
      LastField(lines, EditablePrefix).Some? &&
      PipShowLocation(lines, name) == Some(Join(Path([LastField(lines, EditablePrefix).value]), name))
    ensures PipShowLocation(lines, name).Some? ==> PipShowLocation(lines, name).value.parts[1] == name
  {
    LastFieldIsLast(lines, EditablePrefix);
    LastFieldIsLast(lines, LocationPrefix);
  }

  /** `pip show` output with a single Location line yields that directory joined with the package. */
  lemma PipShowPlainLocation(dir: string, name: string)
    requires forall j :: !SepAt(dir, j)
    ensures PipShowLocation(["Name: " + name, "Location: " + dir], name) == Some(Path([dir, name]))
  {
    var lines := ["Name: " + name, "Location: " + dir];
    assert !StartsWith(lines[0], EditablePrefix) by { assert lines[0][0] == 'N'; }
    assert !StartsWith(lines[1], EditablePrefix) by { assert lines[1][0] == 'L'; }
    assert LastField(lines, EditablePrefix) == None by {
      assert lines[..1][..0] == [];
      assert LastField(lines[..1], EditablePrefix) == LastField(lines[..1][..0], EditablePrefix);
    }
    assert StartsWith(lines[1], LocationPrefix);
    assert "Location: " + dir == "Location" + ": " + dir;
    SecondFieldOfLine("Location", dir);
    assert LastField(lines, LocationPrefix) == Some(dir);
    assert [dir] + [name] == [dir, name];
  }

  // ---------------------------------------------------------------------
  // install_game_source

  datatype GameSource =
    | PathSource(path: Path, markers: Option<string>)
    | GitBranchSource(git: string, branch: string, markers: Option<string>)
    | PyPISource(version: string, markers: Option<string>)

  /**
   * Where an unexpected exception inside the `try` of `install_game_source`
   * is raised, if anywhere: computing or testing `source.path.absolute()`
   * (path sources only), launching or reading the `pip install`
   * (`run_pip_with_output`), or running `pip show`.  The parsing of the
   * `pip show` output after it cannot raise.
   */
  datatype RaisePoint = NoRaise | AtPath | DuringInstall | DuringShow

  /** What one installation meets. */
  datatype InstallEnv = InstallEnv(
    evaluate: string -> bool,  // the marker evaluator
    pipExists: bool,
    absolute: Path,            // `source.path.absolute()` for a path source
    absoluteExists: bool,
    installCode: int,          // return code of `pip install`
    showCode: int,             // return code of `pip show`
    showOutput: seq<string>,   // the lines of its stdout
    raiseAt: RaisePoint)       // an unexpected exception inside the try

  const ExtraIndexUrl: string := "https://download.pytorch.org/whl/cu121"

  /** The argv of the `pip install` for a source. */
  function InstallArgs(pip: Path, source: GameSource, name: string, absolute: Path): (r: seq<string>)
    ensures |r| >= 5 && r[..4] == [Render(pip), "install", "--extra-index-url", ExtraIndexUrl]
    ensures source.GitBranchSource? ==> r[4..] == [GitSpec(source.git, source.branch, name)]
    ensures source.PyPISource? ==> r[4..] == [PyPISpec(name, source.version)]
    ensures source.PathSource? ==> r[4..] == ["-e", Render(absolute)]
  {
    [Render(pip), "install", "--extra-index-url", ExtraIndexUrl] +
      match source
      case PathSource(_, _) => ["-e", Render(absolute)]
      case GitBranchSource(git, branch, _) => [GitSpec(git, branch, name)]
      case PyPISource(version, _) => [PyPISpec(name, version)]
  }

  /** The commands an installation attempted, in order, and the module location it returned. */
  datatype Installed = Installed(commands: seq<seq<string>>, location: Option<Path>)

  /** `install_game_source` (dweam/utils/entrypoint.py:128-215). */
  function InstallGameSource(venv: Path, platform: Platform, source: GameSource, name: string, env: InstallEnv): Installed
  {
    var pip := PipPath(venv, platform);
    if !EvaluateMarkers(source.markers, env.evaluate) || !env.pipExists then Installed([], None)
    else if source.PathSource? && (env.raiseAt == AtPath || !env.absoluteExists) then Installed([], None)
    else
      var install := InstallArgs(pip, source, name, env.absolute);
      if env.raiseAt == DuringInstall || env.installCode != 0 then Installed([install], None)
      else
        var show := [Render(pip), "show", name];
        if env.raiseAt == DuringShow || env.showCode != 0 then Installed([install, show], None)
        else Installed([install, show], PipShowLocation(env.showOutput, name))
  }

  /**
   * An installation returns a location only when the markers hold, pip
   * exists, both pip commands succeed, and `pip show` names one; it then ran
   * exactly the install and the show, in that order.
   */
  lemma InstallContract(venv: Path, platform: Platform, source: GameSource, name: string, env: InstallEnv)
    ensures var r := InstallGameSource(venv, platform, source, name, env);
      && (r.location.Some? <==>
            EvaluateMarkers(source.markers, env.evaluate) && env.pipExists
            && (source.PathSource? ==> env.absoluteExists && env.raiseAt != AtPath)
            && env.installCode == 0 && env.showCode == 0
            && env.raiseAt != DuringInstall && env.raiseAt != DuringShow
            && PipShowLocation(env.showOutput, name).Some?)
      && (r.location.Some? ==>
            && r.location == PipShowLocation(env.showOutput, name)
            && r.commands == [InstallArgs(PipPath(venv, platform), source, name, env.absolute),
                              [Render(PipPath(venv, platform)), "show", name]])
      && (!EvaluateMarkers(source.markers, env.evaluate) ==> r.commands == [])
      && |r.commands| <= 2
  {
  }

  /**
   * An exception inside the `try` ends the installation with no location,
   * and only the commands attempted before it are on record: none when the
   * source path raises, the install but no `pip show` when the install
   * raises, and both when `pip show` raises.
   */
  lemma InstallRaiseStops(venv: Path, platform: Platform, source: GameSource, name: string, env: InstallEnv)
    requires EvaluateMarkers(source.markers, env.evaluate) && env.pipExists
    ensures var r := InstallGameSource(venv, platform, source, name, env);
      var install := InstallArgs(PipPath(venv, platform), source, name, env.absolute);
      && (env.raiseAt in {DuringInstall, DuringShow} || (source.PathSource? && env.raiseAt == AtPath) ==>
            r.location.None?)
      && (source.PathSource? && env.raiseAt == AtPath ==> r == Installed([], None))
      && (env.raiseAt == DuringInstall && (source.PathSource? ==> env.absoluteExists) ==>
            r == Installed([install], None))
      && (env.raiseAt == DuringShow && (source.PathSource? ==> env.absoluteExists) && env.installCode == 0 ==>
            r == Installed([install, [Render(PipPath(venv, platform)), "show", name]], None))
      && (|r.commands| == 2 ==> env.installCode == 0 && env.raiseAt != DuringInstall)
  {
  }

  // ---------------------------------------------------------------------
  // load_game_implementation

  /** `s.split(c)` */
  function Split(s: string, c: char): (r: seq<string>)
    ensures |r| >= 1
    ensures forall i :: 0 <= i < |r| ==> c !in r[i]
    decreases |s|
  {
    if s == [] then [[]]
    else
      var rest := Split(s[1..], c);
      if s[0] == c then [[]] + rest else [[s[0]] + rest[0]] + rest[1..]
  }

  function Count(s: string, c: char): nat
    decreases |s|
  {
    if s == [] then 0 else (if s[0] == c then 1 else 0) + Count(s[1..], c)
  }

  function JoinWith(parts: seq<string>, c: char): string
    requires |parts| >= 1
    decreases |parts|
  {
    if |parts| == 1 then parts[0] else parts[0] + [c] + JoinWith(parts[1..], c)
  }

  /** Splitting yields one more part than there are separators. */
  lemma {:induction false} SplitCount(s: string, c: char)
    ensures |Split(s, c)| == Count(s, c) + 1
    decreases |s|
  {
    if s != [] {
      SplitCount(s[1..], c);
    }
  }

  /** Joining the parts of a split with the separator restores the string. */
  lemma {:induction false} SplitJoinsBack(s: string, c: char)
    ensures JoinWith(Split(s, c), c) == s
    decreases |s|
  {
    if s != [] {
      SplitJoinsBack(s[1..], c);
      var rest := Split(s[1..], c);
      if s[0] == c {
        assert ([[]] + rest)[1..] == rest;
        assert s == [c] + s[1..];
      } else if |rest| == 1 {
        assert s == [s[0]] + s[1..];
      } else {
        assert rest == [rest[0]] + rest[1..];
        assert JoinWith(rest, c) == rest[0] + [c] + JoinWith(rest[1..], c);
        assert ([[s[0]] + rest[0]] + rest[1..])[1..] == rest[1..];
        assert s == [s[0]] + s[1..];
      }
    }
  }

  /** Splitting yields one more part than separators, and joining the parts restores the string. */
  lemma SplitJoin(s: string, c: char)
    ensures |Split(s, c)| == Count(s, c) + 1
    ensures JoinWith(Split(s, c), c) == s
  {
    SplitCount(s, c);
    SplitJoinsBack(s, c);
  }

  lemma {:induction false} SplitWithout(s: string, c: char)
    requires c !in s
    ensures Split(s, c) == [s]
    decreases |s|
  {
    if s != [] {
      SplitWithout(s[1..], c);
      assert [s[0]] + s[1..] == s;
    }
  }

  lemma {:induction false} SplitAppend(a: string, b: string, c: char)
    requires c !in a
    ensures Split(a + [c] + b, c) == [a] + Split(b, c)
    decreases |a|
  {
    if a == [] {
      assert a + [c] + b == [c] + b;
      assert ([c] + b)[1..] == b;
    } else {
      SplitAppend(a[1..], b, c);
      assert (a + [c] + b)[1..] == a[1..] + [c] + b;
      assert [a[0]] + a[1..] == a;
    }
  }

  datatype ImportError = ImportError(entrypoint: string)

  /**
   * `load_game_implementation` (dweam/utils/entrypoint.py:322-329):
   * `resolve(module, attribute)` is the import and attribute lookup; any
   * failure, including a split that does not give two parts, is an ImportError.
   */
  function LoadGameImplementation<C>(entrypoint: string, resolve: (string, string) -> Option<C>): Result<C, ImportError>
  {
    var parts := Split(entrypoint, ':');
    if |parts| != 2 then Failure(ImportError(entrypoint))
    else
      match resolve(parts[0], parts[1])
      case None => Failure(ImportError(entrypoint))
      case Some(cls) => Success(cls)
  }

  /** A load succeeds only for an entrypoint with exactly one ':', and resolves the two sides of it. */
  lemma LoadImplementationSplit<C>(entrypoint: string, resolve: (string, string) -> Option<C>)
    ensures LoadGameImplementation(entrypoint, resolve).Success? ==>
      Count(entrypoint, ':') == 1 &&
      exists m, k :: ':' !in m && ':' !in k && entrypoint == m + ":" + k
        && resolve(m, k) == Some(LoadGameImplementation(entrypoint, resolve).value)
    ensures Count(entrypoint, ':') != 1 ==> LoadGameImplementation(entrypoint, resolve) == Failure(ImportError(entrypoint))
  {
    SplitJoin(entrypoint, ':');
    var parts := Split(entrypoint, ':');
    if |parts| == 2 {
      assert parts[1..] == [parts[1]];
      assert entrypoint == parts[0] + ":" + parts[1];
    }
  }

  /** `module:Class` loads exactly what `resolve` gives for the module and the class. */
  lemma LoadImplementationRoundTrip<C>(m: string, k: string, resolve: (string, string) -> Option<C>)
    requires ':' !in m && ':' !in k
    ensures LoadGameImplementation(m + ":" + k, resolve) ==
      (if resolve(m, k).Some? then Success(resolve(m, k).value) else Failure(ImportError(m + ":" + k)))
  {
    SplitAppend(m, k, ':');
    SplitWithout(k, ':');
    assert m + ":" + k == m + [':'] + k;
  }

  // ---------------------------------------------------------------------
  // load_games

  datatype GameInfo = GameInfo(gameType: string, id: string, title: Option<string>)

  /** The metadata a package ships: its type and its games, in file order. */
  datatype PackageMetadata = PackageMetadata(gameType: string, games: seq<(string, GameInfo)>)

  /** A catalogue entry: the game's info with the metadata it came from attached. */
  datatype Listed = Listed(info: GameInfo, metadata: PackageMetadata)

  /** `games[type][id]` */
  type Catalogue = map<string, map<string, Listed>>

  /** What trying one source gives: metadata, nothing (logged, next source), or an exception (logged, next source). */
  datatype LoadOutcome = Loaded(metadata: PackageMetadata) | NoMetadata | LoadRaised

  datatype LoadEnv = LoadEnv(
    platform: Platform,
    install: (string, GameSource) -> InstallEnv,  // what installing a package from a source meets
    metadataAt: Path -> LoadOutcome,             // load_metadata_from_path
    fromModule: string -> LoadOutcome)           // load_metadata_from_module

  /** The sources configured for each package: `wham` from the local path `wham`. */
  const DefaultPackages: seq<(string, seq<GameSource>)> := [("wham", [PathSource(Path(["wham"]), None)])]

  /** One try of the inner loop (dweam/utils/entrypoint.py:344-357). */
  function TrySource(env: LoadEnv, venv: Option<Path>, name: string, source: GameSource): LoadOutcome
  {
    match venv
    case None => env.fromModule(name)
    case Some(v) =>
      match InstallGameSource(v, env.platform, source, name, env.install(name, source)).location
      case None => NoMetadata
      case Some(modulePath) => env.metadataAt(modulePath)
  }

  /** The metadata of the first source that yields any. */
  function FirstLoaded(env: LoadEnv, venv: Option<Path>, name: string, sources: seq<GameSource>): Option<PackageMetadata>
  {
    if sources == [] then None
    else
      match TrySource(env, venv, name, sources[0])
      case Loaded(m) => Some(m)
      case _ => FirstLoaded(env, venv, name, sources[1..])
  }

  function Lookup(games: Catalogue, gameType: string): map<string, Listed>
  {
    if gameType in games then games[gameType] else map[]
  }

  /** The merge of `entries` from `meta` into the catalogue, in order (dweam/utils/entrypoint.py:360-368). */
  function MergeEntries(games: Catalogue, meta: PackageMetadata, entries: seq<(string, GameInfo)>): Catalogue
  {
    if entries == [] then games
    else
      var g := MergeEntries(games, meta, entries[..|entries| - 1]);
      var e := entries[|entries| - 1];
      g[meta.gameType := Lookup(g, meta.gameType)[e.0 := Listed(e.1, meta)]]
  }

  function Merge(games: Catalogue, meta: PackageMetadata): Catalogue
  {
    MergeEntries(games, meta, meta.games)
  }

  function LoadPackage(games: Catalogue, env: LoadEnv, venv: Option<Path>, name: string, sources: seq<GameSource>): Catalogue
  {
    match FirstLoaded(env, venv, name, sources)
    case None => games
    case Some(m) => Merge(games, m)
  }

  /** `load_games` over the packages, in order. */
  function LoadAll(games: Catalogue, env: LoadEnv, venv: Option<Path>, packages: seq<(string, seq<GameSource>)>): Catalogue
  {
    if packages == [] then games
    else
      var p := packages[|packages| - 1];
      LoadPackage(LoadAll(games, env, venv, packages[..|packages| - 1]), env, venv, p.0, p.1)
  }

  /** `load_games` (dweam/utils/entrypoint.py:332-387): the catalogue after loading `packages` into `games`. */
  method LoadGames(packages: seq<(string, seq<GameSource>)>, venv: Option<Path>, games: Catalogue, env: LoadEnv)
    returns (result: Catalogue)
    ensures result == LoadAll(games, env, venv, packages)
  {
    result := games;
    for i := 0 to |packages|
      invariant result == LoadAll(games, env, venv, packages[..i])
    {
      var name := packages[i].0;
      var sources := packages[i].1;
      assert packages[..i + 1][..i] == packages[..i];
      ghost var before := result;
      var success := false;
      var j := 0;
      while j < |sources|
        invariant 0 <= j <= |sources|
        invariant !success ==> result == before && FirstLoaded(env, venv, name, sources) == FirstLoaded(env, venv, name, sources[j..])
        invariant success ==> result == LoadPackage(before, env, venv, name, sources)
        decreases |sources| - j, !success
      {
        var outcome := TrySource(env, venv, name, sources[j]);
        assert sources[j..][1..] == sources[j + 1..];
        if outcome.Loaded? {
          var meta := outcome.metadata;
          for k := 0 to |meta.games|
            invariant result == MergeEntries(before, meta, meta.games[..k])
          {
            var gameId := meta.games[k].0;
            var info := meta.games[k].1;
            assert meta.games[..k + 1][..k] == meta.games[..k];
            var byType := if meta.gameType in result then result[meta.gameType] else map[];
            result := result[meta.gameType := byType[gameId := Listed(info, meta)]];
          }
          assert meta.games[..|meta.games|] == meta.games;
          success := true;
          break;
        }
        j := j + 1;
      }
      assert j == |sources| && !success ==> sources[j..] == [];
    }
    assert packages[..|packages|] == packages;
  }

  /** The first source that yields metadata is the one whose games are merged; all earlier ones yielded none. */
  lemma {:induction false} FirstLoadedIsFirst(env: LoadEnv, venv: Option<Path>, name: string, sources: seq<GameSource>)
    ensures FirstLoaded(env, venv, name, sources).None? <==>
      forall i :: 0 <= i < |sources| ==> !TrySource(env, venv, name, sources[i]).Loaded?
    ensures FirstLoaded(env, venv, name, sources).Some? ==>
      exists i :: 0 <= i < |sources| && TrySource(env, venv, name, sources[i]) == Loaded(FirstLoaded(env, venv, name, sources).value)
        && forall j :: 0 <= j < i ==> !TrySource(env, venv, name, sources[j]).Loaded?
  {
    if sources != [] {
      FirstLoadedIsFirst(env, venv, name, sources[1..]);
      var tail := sources[1..];
      assert forall i :: 1 <= i < |sources| ==> sources[i] == tail[i - 1];
      if !TrySource(env, venv, name, sources[0]).Loaded? && FirstLoaded(env, venv, name, tail).Some? {
        var i :| 0 <= i < |tail| && TrySource(env, venv, name, tail[i]) == Loaded(FirstLoaded(env, venv, name, tail).value)
          && forall j :: 0 <= j < i ==> !TrySource(env, venv, name, tail[j]).Loaded?;
        assert forall j :: 0 <= j < i + 1 ==> !TrySource(env, venv, name, sources[j]).Loaded? by {
          forall j | 0 <= j < i + 1 ensures !TrySource(env, venv, name, sources[j]).Loaded? {
            if j > 0 { assert sources[j] == tail[j - 1]; }
          }
        }
      }
    }
  }

  /** Without a venv every source reads the same installed module: the package loads from its first source or not at all. */
  lemma {:induction false} NoVenvOneTry(env: LoadEnv, name: string, sources: seq<GameSource>)
    requires sources != []
    ensures FirstLoaded(env, None, name, sources) ==
      (if env.fromModule(name).Loaded? then Some(env.fromModule(name).metadata) else None)
    decreases |sources|
  {
    if |sources| > 1 {
      NoVenvOneTry(env, name, sources[1..]);
    }
  }

  /** The info of the last entry of `entries` for `id`, if any. */
  function LastEntry(entries: seq<(string, GameInfo)>, id: string): Option<GameInfo>
  {
    if entries == [] then None
    else if entries[|entries| - 1].0 == id then Some(entries[|entries| - 1].1)
    else LastEntry(entries[..|entries| - 1], id)
  }

  /**
   * The merge overrides: each id named by the metadata maps to its last
   * entry; every other id of that type, every other type and its games, are
   * unchanged; nothing is removed.
   */
  lemma {:induction false} MergeOverrides(games: Catalogue, meta: PackageMetadata, entries: seq<(string, GameInfo)>)
    ensures var r := MergeEntries(games, meta, entries);
      && r.Keys == games.Keys + (if entries == [] then {} else {meta.gameType})
      && (forall t :: t in games && t != meta.gameType ==> r[t] == games[t])
      && (entries != [] ==> forall id ::
            (id in r[meta.gameType] <==> id in Lookup(games, meta.gameType) || LastEntry(entries, id).Some?))
      && (entries != [] ==> forall id :: id in r[meta.gameType] ==>
            r[meta.gameType][id] ==
              (if LastEntry(entries, id).Some? then Listed(LastEntry(entries, id).value, meta)
               else Lookup(games, meta.gameType)[id]))
  {
    if entries != [] {
      var front := entries[..|entries| - 1];
      MergeOverrides(games, meta, front);
      if front == [] {
        assert MergeEntries(games, meta, front) == games;
      }
    }
  }
}
