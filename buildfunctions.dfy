/**
 * `build-functions.go`: for one directory, the write directives that produce
 * a command-line program per package (one file per declaration source, the
 * package's function table, and a `main.go` whose hook compiles and cleans
 * up), and the one-level walk over the root and its immediate
 * sub-directories.
 *
 * Paths are kept as lists of segments; `filepath.Join` would put `/` between
 * them and clean the result.
 */
module BuildFunctions {
  import opened Wrappers
  import opened Text
  import opened Collaborators
  import opened Hashing
  import opened Walker
  import Functions

  /** The name of the command directory, `cmdDir`. */
  const Cmd: string := "cmd"

  /** The keyword that starts a package clause. */
  const Keyword: string := "package"

  // ---------------------------------------------------------------------------
  // Binary and executable names

  /** `Annotation.Param`: the argument's value, or empty when it is absent. */
  function Param(args: map<string, string>, key: string): string {
    if key in args then args[key] else ""
  }

  /**
   * The program name of a package: only the first `@binaryName` annotation
   * counts; one without arguments is rejected; otherwise its `name` argument,
   * lower-cased. Without annotations the package name is used as it is.
   */
  function BinaryName(pkg: Package): (r: Result<string, Error>)
    ensures r.Err? <==> |pkg.binaryNameArgs| > 0 && |pkg.binaryNameArgs[0]| == 0
    ensures r.Err? ==> r.error == InvalidBinaryName(pkg.filePath)
    ensures r.Ok? && |pkg.binaryNameArgs| > 0 ==>
      |r.value| == |Param(pkg.binaryNameArgs[0], "name")|
      && forall i | 0 <= i < |r.value| :: !('A' <= r.value[i] <= 'Z')
    ensures r.Ok? && |pkg.binaryNameArgs| > 0 ==>
      forall i | 0 <= i < |r.value| :: r.value[i] == LowerChar(Param(pkg.binaryNameArgs[0], "name")[i])
    ensures |pkg.binaryNameArgs| == 0 ==> r == Ok(pkg.name)
  {
    if |pkg.binaryNameArgs| > 0 then
      var args := pkg.binaryNameArgs[0];
      if |args| == 0 then Err(InvalidBinaryName(pkg.filePath))
      else Ok(ToLower(Param(args, "name")))
    else Ok(pkg.name)
  }

  /** Annotations after the first never change the binary name. */
  lemma BinaryNameFirstOnly(pkg: Package, more: seq<map<string, string>>)
    requires |pkg.binaryNameArgs| > 0
    ensures BinaryName(pkg.(binaryNameArgs := pkg.binaryNameArgs[..1] + more)) == BinaryName(pkg)
  {
    assert (pkg.binaryNameArgs[..1] + more)[0] == pkg.binaryNameArgs[0];
  }

  /** The file name of the compiled program: `.exec` is appended on Windows only. */
  function ExeName(binaryName: string, goos: string): (r: string)
    ensures |r| >= |binaryName| && r[..|binaryName|] == binaryName
    ensures goos == "windows" ==> r[|binaryName|..] == ".exec"
    ensures goos != "windows" ==> r == binaryName
  {
    if goos == "windows" then binaryName + ".exec" else binaryName
  }

  // ---------------------------------------------------------------------------
  // Source stripping

  /** The length of the run of word characters starting at `i`. */
  function WordRun(s: string, i: nat): (n: nat)
    requires i <= |s|
    ensures i + n <= |s|
    ensures forall k | i <= k < i + n :: IsWordChar(s[k])
    ensures i + n == |s| || !IsWordChar(s[i + n])
    decreases |s| - i
  {
    if i < |s| && IsWordChar(s[i]) then 1 + WordRun(s, i + 1) else 0
  }

  /** The pattern `package \w+` matches at `i`. */
  predicate ClauseAt(s: string, i: int) {
    OccursAt(s, "package ", i) && i + 8 < |s| && IsWordChar(s[i + 8])
  }

  /** The leftmost index at or after `from` where the pattern matches, or -1. */
  function ClauseIndex(s: string, from: nat): (r: int)
    requires from <= |s|
    ensures r == -1 <==> forall j | from <= j < |s| :: !ClauseAt(s, j)
    ensures r != -1 ==> from <= r < |s| && ClauseAt(s, r) && forall j | from <= j < r :: !ClauseAt(s, j)
    decreases |s| - from
  {
    if from == |s| then -1
    else if ClauseAt(s, from) then from
    else ClauseIndex(s, from + 1)
  }

  /**
   * `FindString` for `package \w+`: the leftmost match, extended over the
   * whole run of word characters, or empty when nothing matches.
   */
  function PackageClause(s: string): (r: string)
    ensures r == [] <==> forall j | 0 <= j < |s| :: !ClauseAt(s, j)
  {
    var i := ClauseIndex(s, 0);
    if i == -1 then "" else ClauseMatchAt(s, i)
  }

  /**
   * When the leftmost clause starts at `i`, the result is the text at `i`
   * up to the end of the word that follows `package `.
   */
  lemma PackageClauseIsLeftmost(s: string, i: nat)
    requires i < |s| && ClauseAt(s, i) && forall j | 0 <= j < i :: !ClauseAt(s, j)
    ensures var r := PackageClause(s);
      && OccursAt(s, r, i) && (i + |r| == |s| || !IsWordChar(s[i + |r|]))
      && |r| > 8 && r[..8] == "package " && forall k | 8 <= k < |r| :: IsWordChar(r[k])
  {
    ClauseIndexIsLeftmost(s, i);
    assert PackageClause(s) == ClauseMatchAt(s, i);
  }

  /** The search finds the leftmost clause. */
  lemma ClauseIndexIsLeftmost(s: string, i: nat)
    requires i < |s| && ClauseAt(s, i) && forall j | 0 <= j < i :: !ClauseAt(s, j)
    ensures ClauseIndex(s, 0) == i
  {
    LeftmostUnique(j => ClauseAt(s, j), ClauseIndex(s, 0), i);
  }

  /** Two leftmost positions of the same property are the same position. */
  lemma LeftmostUnique(p: int -> bool, k: int, i: int)
    requires 0 <= k && p(k) && forall j | 0 <= j < k :: !p(j)
    requires 0 <= i && p(i) && forall j | 0 <= j < i :: !p(j)
    ensures k == i
  {
  }

  /** The match of `package \w+` at `i`, extended over the whole run of word characters. */
  function ClauseMatchAt(s: string, i: nat): (r: string)
    requires i < |s| && ClauseAt(s, i)
    ensures OccursAt(s, r, i) && (i + |r| == |s| || !IsWordChar(s[i + |r|]))
    ensures |r| > 8 && r[..8] == "package " && forall k | 8 <= k < |r| :: IsWordChar(r[k])
  {
    var r := s[i..i + 8 + WordRun(s, i + 8)];
    assert r[..8] == s[i..i + 8];
    r
  }

  /**
   * The source embedded for one declaration file: every occurrence of the
   * joined doc-comment lines is removed, the text is cut to start at the
   * first `package`, the package clause is removed once and the rest is
   * trimmed. When no `package` is left the slice is out of range (a run-time
   * panic in the program), reported here as `NoPackageClause`.
   */
  function StripSource(d: Decl): (r: Result<string, Error>)
    ensures r.Err? <==> !Contains(RemoveAll(d.source, Join(d.comments, "\n")), Keyword)
    ensures r.Err? ==> r.error == NoPackageClause(d.filePath)
    ensures r.Ok? ==> r.value == [] || (!IsSpace(r.value[0]) && !IsSpace(r.value[|r.value| - 1]))
  {
    var s := RemoveAll(d.source, Join(d.comments, "\n"));
    var idx := Index(s, Keyword);
    if idx == -1 then Err(NoPackageClause(d.filePath))
    else Ok(TrimSpace(RemoveFirst(s[idx..], PackageClause(s))))
  }

  /**
   * A declaration file without comments that starts with its package clause
   * is embedded as the rest of the file, trimmed.
   */
  lemma StripSourceOfClauseFirst(file: string, name: string, rest: string)
    requires name != [] && forall k | 0 <= k < |name| :: IsWordChar(name[k])
    requires rest == [] || !IsWordChar(rest[0])
    ensures StripSource(Decl(file, "package " + name + rest, [])) == Ok(TrimSpace(rest))
  {
    var s := "package " + name + rest;
    var clause := "package " + name;
    var s0 := RemoveAll(s, Join([], "\n"));
    assert s0 == s;
    assert s[..7] == Keyword;
    IndexAtStart(s, Keyword);
    assert s0[Index(s0, Keyword)..] == s;
    ClauseOfClauseFirst(name, rest);
    assert s[..|clause|] == clause;
    RemoveFirstAtStart(s, clause);
    assert s[|clause|..] == rest;
  }

  /**
   * The general case: with `c` the source without its comments, the text
   * kept runs from the first `package` to the end of `c`, with the leftmost
   * clause (at `j`) cut out, and is trimmed.
   */
  lemma StripSourceCutsLeftmostClause(d: Decl, c: string, j: nat)
    requires c == RemoveAll(d.source, Join(d.comments, "\n"))
    requires j < |c| && ClauseAt(c, j) && forall m | 0 <= m < j :: !ClauseAt(c, m)
    ensures var idx := Index(c, Keyword);
      var cl := PackageClause(c);
      && 0 <= idx <= j && j + |cl| <= |c|
      && StripSource(d) == Ok(TrimSpace(c[idx..j] + c[j + |cl|..]))
  {
    CutClause(c, j);
    StripSourceFound(d, c, Index(c, Keyword));
  }

  /** Once the keyword is found, the kept text is the trimmed cut of the rest. */
  lemma StripSourceFound(d: Decl, c: string, idx: int)
    requires c == RemoveAll(d.source, Join(d.comments, "\n")) && idx == Index(c, Keyword) && idx != -1
    ensures StripSource(d) == Ok(TrimSpace(RemoveFirst(c[idx..], PackageClause(c))))
  {
  }

  /** From the first keyword on, with the leftmost clause's text removed once. */
  lemma CutClause(c: string, j: nat)
    requires j < |c| && ClauseAt(c, j) && forall m | 0 <= m < j :: !ClauseAt(c, m)
    ensures var idx := Index(c, Keyword);
      var cl := PackageClause(c);
      && 0 <= idx <= j && j + |cl| <= |c|
      && RemoveFirst(c[idx..], cl) == c[idx..j] + c[j + |cl|..]
  {
    ClauseHasKeyword(c, j);
    assert Contains(c, Keyword);
    PackageClauseIsLeftmost(c, j);
    CutLeftmost(c, PackageClause(c), Index(c, Keyword), j);
  }

  /**
   * A source whose comment-free text has the keyword but no clause keeps
   * everything from the first `package` on, trimmed.
   */
  lemma StripSourceWithoutClause(d: Decl, c: string)
    requires c == RemoveAll(d.source, Join(d.comments, "\n"))
    requires Contains(c, Keyword) && forall m | 0 <= m < |c| :: !ClauseAt(c, m)
    ensures StripSource(d) == Ok(TrimSpace(c[Index(c, Keyword)..]))
  {
    assert PackageClause(c) == [];
  }

  /** A prefix of an occurrence is an occurrence. */
  lemma OccursPrefix(s: string, sub: string, i: int, n: nat)
    requires OccursAt(s, sub, i) && n <= |sub|
    ensures OccursAt(s, sub[..n], i)
  {
    assert s[i..i + n] == s[i..i + |sub|][..n];
  }

  /** A clause position is an occurrence of the keyword. */
  lemma ClauseHasKeyword(s: string, j: int)
    requires ClauseAt(s, j)
    ensures OccursAt(s, Keyword, j)
  {
    OccursPrefix(s, "package ", j, 7);
    assert "package "[..7] == Keyword;
  }

  /** Wherever the text of a clause match occurs, a clause starts. */
  lemma ClauseTextIsClause(s: string, cl: string, p: int)
    requires |cl| > 8 && cl[..8] == "package " && IsWordChar(cl[8]) && OccursAt(s, cl, p)
    ensures ClauseAt(s, p)
  {
    OccursPrefix(s, cl, p, 8);
    assert s[p + 8] == s[p..p + |cl|][8];
  }

  /** Cutting the first occurrence of the leftmost clause's text from a suffix that still holds it. */
  lemma CutLeftmost(c: string, cl: string, idx: nat, j: nat)
    requires idx <= j && |cl| > 8 && cl[..8] == "package " && IsWordChar(cl[8]) && OccursAt(c, cl, j)
    requires forall m | 0 <= m < j :: !ClauseAt(c, m)
    ensures RemoveFirst(c[idx..], cl) == c[idx..j] + c[j + |cl|..]
  {
    LeftmostInSuffix(c, cl, idx, j);
    RemoveFirstAt(c[idx..], cl, j - idx);
    SuffixSlices(c, idx, j, j + |cl|);
  }

  /** Removing the first occurrence of a pattern found at `q`. */
  lemma RemoveFirstAt(t: string, pat: string, q: nat)
    requires pat != [] && Index(t, pat) == q
    ensures q + |pat| <= |t| && RemoveFirst(t, pat) == t[..q] + t[q + |pat|..]
  {
  }

  /** In a suffix that still holds the leftmost clause, its text first occurs where that clause starts. */
  lemma LeftmostInSuffix(c: string, cl: string, idx: nat, j: nat)
    requires idx <= j && |cl| > 8 && cl[..8] == "package " && IsWordChar(cl[8]) && OccursAt(c, cl, j)
    requires forall m | 0 <= m < j :: !ClauseAt(c, m)
    ensures Index(c[idx..], cl) == j - idx
  {
    var t := c[idx..];
    var q := j - idx;
    assert OccursAt(t, cl, q) by {
      assert t[q..q + |cl|] == c[j..j + |cl|];
    }
    forall m | 0 <= m < q
      ensures !OccursAt(t, cl, m)
    {
      if OccursAt(t, cl, m) {
        assert c[idx + m..idx + m + |cl|] == t[m..m + |cl|];
        ClauseTextIsClause(c, cl, idx + m);
      }
    }
    LeftmostUnique(m => OccursAt(t, cl, m), Index(t, cl), q);
  }

  /** Slicing a suffix is slicing the whole text, shifted. */
  lemma SuffixSlices(c: string, idx: nat, j: nat, k: nat)
    requires idx <= j <= k <= |c|
    ensures c[idx..][..j - idx] == c[idx..j] && c[idx..][k - idx..] == c[k..]
  {
  }

  lemma IndexAtStart(s: string, sub: string)
    requires |sub| <= |s| && s[..|sub|] == sub
    ensures Index(s, sub) == 0
  {
    assert OccursAt(s, sub, 0);
  }

  lemma RemoveFirstAtStart(s: string, pat: string)
    requires pat != [] && |pat| <= |s| && s[..|pat|] == pat
    ensures RemoveFirst(s, pat) == s[|pat|..]
  {
    IndexAtStart(s, pat);
    assert OccursAt(s, pat, 0);
  }

  lemma ClauseOfClauseFirst(name: string, rest: string)
    requires name != [] && forall k | 0 <= k < |name| :: IsWordChar(name[k])
    requires rest == [] || !IsWordChar(rest[0])
    ensures PackageClause("package " + name + rest) == "package " + name
  {
    var s := "package " + name + rest;
    assert s[..8] == "package ";
    assert ClauseAt(s, 0);
    assert ClauseIndex(s, 0) == 0;
    WordRunOver(s, 8, |name|);
  }

  lemma {:induction false} WordRunOver(s: string, i: nat, n: nat)
    requires i + n <= |s| && forall k | i <= k < i + n :: IsWordChar(s[k])
    requires i + n == |s| || !IsWordChar(s[i + n])
    ensures WordRun(s, i) == n
    decreases n
  {
    if n > 0 {
      WordRunOver(s, i + 1, n - 1);
    }
  }

  // ---------------------------------------------------------------------------
  // Write directives

  /** Which template a directive renders, with the values it is given. */
  datatype Render =
    | SourceFile(source: string)                                      // one declaration file
    | PackageFile(binaryName: string, functions: seq<Functions.Function>)  // the function table
    | MainFile                                                        // the program entry point

  /** What runs after a directive is written. */
  datatype Hook =
    | NoHook
    | BuildHook(skipBuild: bool, binaryName: string, output: seq<string>, entry: seq<string>, buildDir: seq<string>)

  /** One file to write: its name, the directory it goes in, its contents and its hook. */
  datatype Directive = Directive(fileName: string, dir: seq<string>, writer: Render, after: Hook)

  /** One external action of a hook. */
  datatype Step =
    | Compile(output: seq<string>, entry: seq<string>)   // `go build -o output entry`
    | Cleanup(buildDir: seq<string>)                     // remove the generated sources

  /**
   * Running a hook, given whether compiling and removing succeed: nothing
   * when the build is skipped; otherwise compile, and clean up only after a
   * successful compile; a failed compile is reported without cleaning up.
   */
  function RunHook(h: Hook, compiles: bool, removes: bool): (r: (seq<Step>, Option<Error>))
    ensures h.NoHook? || h.skipBuild ==> r == ([], None)
    ensures forall k | 0 <= k < |r.0| :: r.0[k].Cleanup? <==> k == 1
    ensures |r.0| == 2 ==> compiles
    ensures r.1.Some? <==> h.BuildHook? && !h.skipBuild && !(compiles && removes)
    ensures h.BuildHook? && !h.skipBuild ==>
      && |r.0| >= 1 && r.0[0] == Compile(h.output, h.entry)
      && (|r.0| == 2 <==> compiles)
      && (|r.0| == 2 ==> r.0[1] == Cleanup(h.buildDir))
    ensures h.BuildHook? && !h.skipBuild && !compiles ==> r.1 == Some(CompileFailed(h.binaryName))
    ensures h.BuildHook? && !h.skipBuild && compiles && !removes ==> r.1 == Some(CleanupFailed(h.binaryName))
  {
    match h
    case NoHook => ([], None)
    case BuildHook(skip, bin, output, entry, buildDir) =>
      if skip then ([], None)
      else if !compiles then ([Compile(output, entry)], Some(CompileFailed(bin)))
      else if !removes then ([Compile(output, entry), Cleanup(buildDir)], Some(CleanupFailed(bin)))
      else ([Compile(output, entry), Cleanup(buildDir)], None)
  }

  /** What `BuildPackageForDir` builds up: the directives and the functions found so far. */
  datatype Plan = Plan(list: seq<Directive>, functions: seq<Functions.Function>)

  /** The arguments `BuildPackageForDir` is called with, apart from the parser. */
  datatype Target = Target(dir: string, cmd: string, binaryPath: string, skipBuild: bool)

  /** `BuildList`. */
  datatype BuildList = BuildList(
    hash: string,
    path: string,
    pkgPath: string,
    pkgFilePath: string,
    list: seq<Directive>,
    functions: seq<Functions.Function>)

  /** `BuildFunctions`: the root's plan and each immediate sub-directory's, by relative name. */
  datatype BuildFunctions = BuildFunctions(dir: string, main: BuildList, subs: map<string, BuildList>)

  /** The directory a package's sources go in. */
  function SourceDir(cmd: string, bin: string): seq<string> {
    [cmd, bin, "pkg"]
  }

  /** The directive for one declaration file. */
  function SourceDirective(d: Decl, source: string, pkgDir: seq<string>): Directive {
    Directive(Base(d.filePath), pkgDir, SourceFile(source), NoHook)
  }

  /**
   * The declaration loop of one package folded over its declarations in
   * order, starting from `start`: each one's functions are appended, then its
   * stripped source becomes a directive; the first failure ends the fold.
   */
  function PlanDecls(pkg: Package, decls: seq<Decl>, pkgDir: seq<string>,
                     pull: (Package, Decl) -> Result<seq<Functions.Function>, Error>,
                     strip: Decl -> Result<string, Error>, start: Plan): Result<Plan, Error>
  {
    if decls == [] then Ok(start)
    else
      var n := |decls| - 1;
      var p := PlanDecls(pkg, decls[..n], pkgDir, pull, strip, start);
      if p.Err? then p
      else match pull(pkg, decls[n])
        case Err(e) => Err(e)
        case Ok(fns) =>
          match strip(decls[n])
          case Err(e) => Err(e)
          case Ok(src) => Ok(Plan(p.value.list + [SourceDirective(decls[n], src, pkgDir)], p.value.functions + fns))
  }

  /** The two directives that close a package: its function table, then `main.go` with the build hook. */
  function Closing(t: Target, bin: string, exe: string, functions: seq<Functions.Function>): seq<Directive> {
    [Directive("pkg_" + bin + ".go", SourceDir(t.cmd, bin), PackageFile(bin, functions), NoHook),
     Directive("main.go", [t.cmd, bin], MainFile,
               BuildHook(t.skipBuild, bin, [t.binaryPath, exe], [t.dir, t.cmd, bin, "main.go"], [t.dir, t.cmd, bin]))]
  }

  /**
   * One iteration of the package loop: the package is fingerprinted (and the
   * fingerprint discarded), named, its declarations planned, and the two
   * closing directives appended. The function table receives every function
   * found so far in the directory, earlier packages' included.
   */
  function PlanPackage(t: Target, tools: Tools, pkg: Package, start: Plan): Result<Plan, Error>
  {
    match Fingerprint(pkg.files, tools.digest)
    case Err(e) => Err(e)
    case Ok(_) =>
      match BinaryName(pkg)
      case Err(e) => Err(e)
      case Ok(bin) =>
        match PlanDecls(pkg, pkg.decls, SourceDir(t.cmd, bin), tools.pull, StripSource, start)
        case Err(e) => Err(e)
        case Ok(q) => Ok(Plan(q.list + Closing(t, bin, ExeName(bin, tools.goos), q.functions), q.functions))
  }

  /** The package loop folded over the packages in order. */
  function PlanPackages(t: Target, tools: Tools, pkgs: seq<Package>): Result<Plan, Error>
  {
    if pkgs == [] then Ok(Plan([], []))
    else
      var n := |pkgs| - 1;
      var p := PlanPackages(t, tools, pkgs[..n]);
      if p.Err? then p else PlanPackage(t, tools, pkgs[n], p.value)
  }

  /**
   * `BuildPackageForDir` on one directory: without Go source an empty list;
   * a parse failure is passed on; otherwise the planned directives. Only the
   * path is ever filled in among the list's names.
   */
  function PlanDir(t: Target, tools: Tools): Result<BuildList, Error>
  {
    match tools.parse(t.dir)
    case NoGoFiles => Ok(BuildList("", t.dir, "", "", [], []))
    case Failed(e) => Err(e)
    case Parsed(pkgs) =>
      match PlanPackages(t, tools, pkgs)
      case Err(e) => Err(e)
      case Ok(plan) => Ok(BuildList("", t.dir, "", "", plan.list, plan.functions))
  }

  lemma {:induction false} PlanDeclsFailureSticks(pkg: Package, decls: seq<Decl>, pkgDir: seq<string>,
                                                  pull: (Package, Decl) -> Result<seq<Functions.Function>, Error>,
                                                  strip: Decl -> Result<string, Error>, start: Plan, i: nat)
    requires i <= |decls| && PlanDecls(pkg, decls[..i], pkgDir, pull, strip, start).Err?
    ensures PlanDecls(pkg, decls, pkgDir, pull, strip, start) == PlanDecls(pkg, decls[..i], pkgDir, pull, strip, start)
    decreases |decls| - i
  {
    if i < |decls| {
      assert decls[..i + 1][..i] == decls[..i];
      PlanDeclsFailureSticks(pkg, decls, pkgDir, pull, strip, start, i + 1);
    } else {
      assert decls[..i] == decls;
    }
  }

  lemma {:induction false} PlanPackagesFailureSticks(t: Target, tools: Tools, pkgs: seq<Package>, i: nat)
    requires i <= |pkgs| && PlanPackages(t, tools, pkgs[..i]).Err?
    ensures PlanPackages(t, tools, pkgs) == PlanPackages(t, tools, pkgs[..i])
    decreases |pkgs| - i
  {
    if i < |pkgs| {
      assert pkgs[..i + 1][..i] == pkgs[..i];
      PlanPackagesFailureSticks(t, tools, pkgs, i + 1);
    } else {
      assert pkgs[..i] == pkgs;
    }
  }

  /**
   * The declaration loop of `BuildPackageForDir` for one package: each
   * declaration's functions are appended, then its source, cut by `strip`
   * (`StripSource` in the program), becomes a directive in `pkgDir`; the
   * first failure aborts.
   */
  method PlanDeclarations(pkg: Package, pkgDir: seq<string>,
                          pull: (Package, Decl) -> Result<seq<Functions.Function>, Error>,
                          strip: Decl -> Result<string, Error>, start: Plan)
    returns (r: Result<Plan, Error>)
    ensures r == PlanDecls(pkg, pkg.decls, pkgDir, pull, strip, start)
  {
    var list, functions := start.list, start.functions;
    for j := 0 to |pkg.decls|
      invariant PlanDecls(pkg, pkg.decls[..j], pkgDir, pull, strip, start) == Ok(Plan(list, functions))
    {
      var d := pkg.decls[j];
      assert pkg.decls[..j + 1][..j] == pkg.decls[..j];
      var fns := pull(pkg, d);
      if fns.Err? {
        PlanDeclsFailureSticks(pkg, pkg.decls, pkgDir, pull, strip, start, j + 1);
        return Err(fns.error);
      }
      functions := functions + fns.value;
      var source := strip(d);
      if source.Err? {
        PlanDeclsFailureSticks(pkg, pkg.decls, pkgDir, pull, strip, start, j + 1);
        return Err(source.error);
      }
      list := list + [SourceDirective(d, source.value, pkgDir)];
    }
    assert pkg.decls[..|pkg.decls|] == pkg.decls;
    return Ok(Plan(list, functions));
  }

  /**
   * The body of the package loop of `BuildPackageForDir`: fingerprint the
   * package, name it, plan its declarations after `start`, then append the
   * function table and `main.go`; the first failure aborts. (The program
   * also joins the fingerprints into a directory hash that it never uses.)
   */
  method PlanOnePackage(t: Target, tools: Tools, pkg: Package, start: Plan) returns (r: Result<Plan, Error>)
    ensures r == PlanPackage(t, tools, pkg, start)
  {
    var pkgHash := GenerateHash(pkg.files, tools.digest);
    if pkgHash.Err? {
      return Err(pkgHash.error);
    }
    var name := BinaryName(pkg);
    if name.Err? {
      return Err(name.error);
    }
    var bin := name.value;
    var exe := ExeName(bin, tools.goos);
    var planned := PlanDeclarations(pkg, SourceDir(t.cmd, bin), tools.pull, StripSource, start);
    if planned.Err? {
      return Err(planned.error);
    }
    var functions := planned.value.functions;
    return Ok(Plan(planned.value.list + Closing(t, bin, exe, functions), functions));
  }

  /** The package loop of `BuildPackageForDir`: each package in order; the first failure aborts. */
  method PlanAllPackages(t: Target, tools: Tools, pkgs: seq<Package>) returns (r: Result<Plan, Error>)
    ensures r == PlanPackages(t, tools, pkgs)
  {
    var list: seq<Directive> := [];
    var functions: seq<Functions.Function> := [];
    for i := 0 to |pkgs|
      invariant PlanPackages(t, tools, pkgs[..i]) == Ok(Plan(list, functions))
    {
      assert pkgs[..i + 1][..i] == pkgs[..i];
      var planned := PlanOnePackage(t, tools, pkgs[i], Plan(list, functions));
      if planned.Err? {
        PlanPackagesFailureSticks(t, tools, pkgs, i + 1);
        return Err(planned.error);
      }
      list, functions := planned.value.list, planned.value.functions;
    }
    assert pkgs[..|pkgs|] == pkgs;
    return Ok(Plan(list, functions));
  }

  /**
   * `BuildPackageForDir`: parses the directory; a directory without Go
   * files gives an empty list, a parse failure is returned, and otherwise
   * the packages are planned.
   */
  method BuildPackageForDir(t: Target, tools: Tools) returns (r: Result<BuildList, Error>)
    ensures r == PlanDir(t, tools)
  {
    match tools.parse(t.dir)
    case NoGoFiles =>
      return Ok(BuildList("", t.dir, "", "", [], []));
    case Failed(e) =>
      return Err(e);
    case Parsed(pkgs) =>
      var planned := PlanAllPackages(t, tools, pkgs);
      if planned.Err? {
        return Err(planned.error);
      }
      return Ok(BuildList("", t.dir, "", "", planned.value.list, planned.value.functions));
  }

  // ---------------------------------------------------------------------------
  // The shape of a plan

  /** A plan's declarations succeed exactly when every declaration is classified and stripped. */
  lemma {:induction false} PlanDeclsSucceeds(pkg: Package, decls: seq<Decl>, pkgDir: seq<string>,
                                             pull: (Package, Decl) -> Result<seq<Functions.Function>, Error>,
                     strip: Decl -> Result<string, Error>, start: Plan)
    ensures PlanDecls(pkg, decls, pkgDir, pull, strip, start).Ok? <==>
      forall k | 0 <= k < |decls| :: pull(pkg, decls[k]).Ok? && strip(decls[k]).Ok?
  {
    if decls != [] {
      var n := |decls| - 1;
      var init := decls[..n];
      PlanDeclsSucceeds(pkg, init, pkgDir, pull, strip, start);
      assert forall k | 0 <= k < n :: init[k] == decls[k];
      calc {
        PlanDecls(pkg, decls, pkgDir, pull, strip, start).Ok?;
      ==
        PlanDecls(pkg, init, pkgDir, pull, strip, start).Ok? && pull(pkg, decls[n]).Ok? && strip(decls[n]).Ok?;
      ==
        (forall k | 0 <= k < n :: pull(pkg, init[k]).Ok? && strip(init[k]).Ok?) && pull(pkg, decls[n]).Ok? && strip(decls[n]).Ok?;
      ==
        forall k | 0 <= k < |decls| :: pull(pkg, decls[k]).Ok? && strip(decls[k]).Ok?;
      }
    }
  }

  /**
   * The declarations add one directive each, in order, after what was
   * there: the file's base name, in the package's source directory, holding
   * its stripped source; the functions found are appended after the earlier ones.
   */
  lemma {:induction false} PlanDeclsList(pkg: Package, decls: seq<Decl>, pkgDir: seq<string>,
                                         pull: (Package, Decl) -> Result<seq<Functions.Function>, Error>,
                     strip: Decl -> Result<string, Error>, start: Plan)
    requires PlanDecls(pkg, decls, pkgDir, pull, strip, start).Ok?
    ensures var q := PlanDecls(pkg, decls, pkgDir, pull, strip, start).value;
      && |q.list| == |start.list| + |decls|
      && q.list[..|start.list|] == start.list
      && |q.functions| >= |start.functions| && q.functions[..|start.functions|] == start.functions
    ensures forall k | 0 <= k < |decls| ::
      strip(decls[k]).Ok?
      && PlanDecls(pkg, decls, pkgDir, pull, strip, start).value.list[|start.list| + k]
         == Directive(Base(decls[k].filePath), pkgDir, SourceFile(strip(decls[k]).value), NoHook)
  {
    PlanDeclsSucceeds(pkg, decls, pkgDir, pull, strip, start);
    if decls != [] {
      var n := |decls| - 1;
      PlanDeclsSucceeds(pkg, decls[..n], pkgDir, pull, strip, start);
      assert forall k | 0 <= k < n :: decls[..n][k] == decls[k];
      PlanDeclsList(pkg, decls[..n], pkgDir, pull, strip, start);
    }
  }

  /** The binary name and the declarations' plan of a package that was planned. */
  lemma PlanPackageParts(t: Target, tools: Tools, pkg: Package, start: Plan)
    requires PlanPackage(t, tools, pkg, start).Ok?
    ensures BinaryName(pkg).Ok?
    ensures var bin := BinaryName(pkg).value;
      var q := PlanDecls(pkg, pkg.decls, SourceDir(t.cmd, bin), tools.pull, StripSource, start);
      && q.Ok?
      && PlanPackage(t, tools, pkg, start)
         == Ok(Plan(q.value.list + Closing(t, bin, ExeName(bin, tools.goos), q.value.functions), q.value.functions))
  {
  }

  /**
   * One package adds two directives more than it has declarations, after
   * what was there, and appends to the functions found so far.
   */
  lemma PlanPackageExtends(t: Target, tools: Tools, pkg: Package, start: Plan)
    requires PlanPackage(t, tools, pkg, start).Ok?
    ensures var q := PlanPackage(t, tools, pkg, start).value;
      && |q.list| == |start.list| + |pkg.decls| + 2
      && q.list[..|start.list|] == start.list
      && |q.functions| >= |start.functions| && q.functions[..|start.functions|] == start.functions
  {
    PlanPackageParts(t, tools, pkg, start);
    var bin := BinaryName(pkg).value;
    var q := PlanDecls(pkg, pkg.decls, SourceDir(t.cmd, bin), tools.pull, StripSource, start).value;
    PlanDeclsList(pkg, pkg.decls, SourceDir(t.cmd, bin), tools.pull, StripSource, start);
    var l := q.list + Closing(t, bin, ExeName(bin, tools.goos), q.functions);
    assert l[..|start.list|] == q.list[..|start.list|];
  }

  /** The package's declaration files come first, in order, in its source directory `cmd/<binary>/pkg`. */
  lemma PlanPackageSources(t: Target, tools: Tools, pkg: Package, start: Plan, i: nat)
    requires PlanPackage(t, tools, pkg, start).Ok? && i < |pkg.decls|
    ensures BinaryName(pkg).Ok? && StripSource(pkg.decls[i]).Ok?
    ensures |start.list| + i < |PlanPackage(t, tools, pkg, start).value.list|
    ensures PlanPackage(t, tools, pkg, start).value.list[|start.list| + i]
      == Directive(Base(pkg.decls[i].filePath), SourceDir(t.cmd, BinaryName(pkg).value), SourceFile(StripSource(pkg.decls[i]).value), NoHook)
  {
    PlanPackageParts(t, tools, pkg, start);
    var bin := BinaryName(pkg).value;
    var q := PlanDecls(pkg, pkg.decls, SourceDir(t.cmd, bin), tools.pull, StripSource, start).value;
    PlanDeclsList(pkg, pkg.decls, SourceDir(t.cmd, bin), tools.pull, StripSource, start);
    var l := q.list + Closing(t, bin, ExeName(bin, tools.goos), q.functions);
    assert l[|start.list| + i] == q.list[|start.list| + i];
  }

  /**
   * Then `pkg_<binary>.go` in the source directory, carrying every function
   * found so far, and last `main.go` in `cmd/<binary>` with the hook that
   * builds `<binaryPath>/<exe>` from it and removes `<dir>/cmd/<binary>`.
   */
  lemma PlanPackageClosing(t: Target, tools: Tools, pkg: Package, start: Plan)
    requires PlanPackage(t, tools, pkg, start).Ok?
    ensures BinaryName(pkg).Ok?
    ensures var bin := BinaryName(pkg).value;
      var q := PlanPackage(t, tools, pkg, start).value;
      var m := |start.list| + |pkg.decls|;
      && |q.list| == m + 2
      && q.list[m] == Directive("pkg_" + bin + ".go", SourceDir(t.cmd, bin), PackageFile(bin, q.functions), NoHook)
      && q.list[m + 1] == Directive("main.go", [t.cmd, bin], MainFile,
           BuildHook(t.skipBuild, bin, [t.binaryPath, ExeName(bin, tools.goos)], [t.dir, t.cmd, bin, "main.go"], [t.dir, t.cmd, bin]))
  {
    PlanPackageParts(t, tools, pkg, start);
    var bin := BinaryName(pkg).value;
    PlanDeclsList(pkg, pkg.decls, SourceDir(t.cmd, bin), tools.pull, StripSource, start);
  }

  /** The number of directives a list of packages yields: two more than its declarations, per package. */
  function DirectiveCount(pkgs: seq<Package>): nat {
    if pkgs == [] then 0 else DirectiveCount(pkgs[..|pkgs| - 1]) + |pkgs[|pkgs| - 1].decls| + 2
  }

  /** Every directive lies under the command directory; every build hook writes under the binary path. */
  predicate Placed(list: seq<Directive>, t: Target) {
    forall k | 0 <= k < |list| ::
      |list[k].dir| >= 2 && list[k].dir[0] == t.cmd
      && (list[k].after.BuildHook? ==>
            |list[k].after.output| >= 1 && list[k].after.output[0] == t.binaryPath
            && |list[k].after.entry| >= 1 && list[k].after.entry[0] == t.dir)
  }

  /** The declarations' directives all go in the package's source directory, without hooks. */
  lemma {:induction false} PlanDeclsDirs(pkg: Package, decls: seq<Decl>, pkgDir: seq<string>,
                                         pull: (Package, Decl) -> Result<seq<Functions.Function>, Error>,
                                         strip: Decl -> Result<string, Error>, start: Plan)
    requires PlanDecls(pkg, decls, pkgDir, pull, strip, start).Ok?
    ensures var q := PlanDecls(pkg, decls, pkgDir, pull, strip, start).value;
      && |q.list| >= |start.list| && q.list[..|start.list|] == start.list
      && forall k | |start.list| <= k < |q.list| :: q.list[k].dir == pkgDir && q.list[k].after.NoHook?
  {
    if decls != [] {
      PlanDeclsDirs(pkg, decls[..|decls| - 1], pkgDir, pull, strip, start);
    }
  }

  /** A package's directives are placed like the ones before it. */
  lemma PlanPackagePlaced(t: Target, tools: Tools, pkg: Package, start: Plan)
    requires PlanPackage(t, tools, pkg, start).Ok? && Placed(start.list, t)
    ensures Placed(PlanPackage(t, tools, pkg, start).value.list, t)
  {
    PlanPackageParts(t, tools, pkg, start);
    var bin := BinaryName(pkg).value;
    var pkgDir := SourceDir(t.cmd, bin);
    var d := PlanDecls(pkg, pkg.decls, pkgDir, tools.pull, StripSource, start).value;
    PlanDeclsDirs(pkg, pkg.decls, pkgDir, tools.pull, StripSource, start);
    var l := d.list + Closing(t, bin, ExeName(bin, tools.goos), d.functions);
    forall k | 0 <= k < |l|
      ensures |l[k].dir| >= 2 && l[k].dir[0] == t.cmd
      ensures l[k].after.BuildHook? ==>
        |l[k].after.output| >= 1 && l[k].after.output[0] == t.binaryPath
        && |l[k].after.entry| >= 1 && l[k].after.entry[0] == t.dir
    {
      if k < |start.list| {
        assert l[k] == d.list[..|start.list|][k];
      } else if k < |d.list| {
        assert l[k] == d.list[k];
      }
    }
  }

  /**
   * A directory's packages yield exactly their declarations plus two
   * directives each, the last one `main.go`, all under the command directory.
   */
  lemma {:induction false} PlanPackagesShape(t: Target, tools: Tools, pkgs: seq<Package>)
    requires PlanPackages(t, tools, pkgs).Ok?
    ensures |PlanPackages(t, tools, pkgs).value.list| == DirectiveCount(pkgs)
    ensures Placed(PlanPackages(t, tools, pkgs).value.list, t)
    ensures pkgs != [] ==> PlanPackages(t, tools, pkgs).value.list[DirectiveCount(pkgs) - 1].fileName == "main.go"
  {
    if pkgs != [] {
      var n := |pkgs| - 1;
      var p := PlanPackages(t, tools, pkgs[..n]);
      PlanPackagesShape(t, tools, pkgs[..n]);
      PlanPackageClosing(t, tools, pkgs[n], p.value);
      PlanPackagePlaced(t, tools, pkgs[n], p.value);
    }
  }

  /**
   * What `BuildPackageForDir` reports: without Go source an empty list, and
   * in every successful case the directory as path while the hash, package
   * path and package file path stay empty (they are never assigned); the
   * directives are placed under `cmd` as the caller passed it.
   */
  lemma PlanDirOutcome(t: Target, tools: Tools)
    ensures tools.parse(t.dir).NoGoFiles? ==> PlanDir(t, tools) == Ok(BuildList("", t.dir, "", "", [], []))
    ensures tools.parse(t.dir).Failed? ==> PlanDir(t, tools) == Err(tools.parse(t.dir).error)
    ensures PlanDir(t, tools).Ok? ==>
      var b := PlanDir(t, tools).value;
      && b.path == t.dir && b.hash == "" && b.pkgPath == "" && b.pkgFilePath == ""
      && Placed(b.list, t)
    ensures PlanDir(t, tools).Ok? && tools.parse(t.dir).Parsed? ==>
      |PlanDir(t, tools).value.list| == DirectiveCount(tools.parse(t.dir).pkgs)
  {
    if PlanDir(t, tools).Ok? && tools.parse(t.dir).Parsed? {
      PlanPackagesShape(t, tools, tools.parse(t.dir).pkgs);
    }
  }

  // ---------------------------------------------------------------------------
  // The one-level walk

  /** The per-directory operation of the walk, with the arguments in the order the walk passes them. */
  function PlanOp(binaryPath: string, skipBuild: bool, tools: Tools): string -> Result<BuildList, Error> {
    d => PlanDir(Target(d, Cmd, binaryPath, skipBuild), tools)
  }

  /** The root's target: the binary path and the command directory are passed in swapped positions. */
  function RootTarget(dir: string, binaryPath: string, skipBuild: bool): Target {
    Target(dir, binaryPath, Cmd, skipBuild)
  }

  /** `BuildPackage`: the root first, then the one-level walk; the result's `dir` is never assigned. */
  function BuildTree(dir: string, binaryPath: string, skipBuild: bool, entries: seq<Entry>, tools: Tools): Result<BuildFunctions, Error>
  {
    match PlanDir(RootTarget(dir, binaryPath, skipBuild), tools)
    case Err(e) => Err(e)
    case Ok(main) =>
      match Walk(entries, PlanOp(binaryPath, skipBuild, tools))
      case Err(e) => Err(e)
      case Ok(subs) => Ok(BuildFunctions("", main, subs))
  }

  /**
   * `BuildPackage`: plans the root; on failure returns at once; otherwise
   * plans each sub-directory entry in listing order, skipping plain files,
   * storing each under its relative name and stopping at the first failure.
   */
  method BuildPackage(dir: string, binaryPath: string, skipBuild: bool, entries: seq<Entry>, tools: Tools)
    returns (r: Result<BuildFunctions, Error>)
    ensures r == BuildTree(dir, binaryPath, skipBuild, entries, tools)
  {
    var main := BuildPackageForDir(RootTarget(dir, binaryPath, skipBuild), tools);
    if main.Err? {
      return Err(main.error);
    }
    var subs := PlanSubdirectories(binaryPath, skipBuild, entries, tools);
    if subs.Err? {
      return Err(subs.error);
    }
    return Ok(BuildFunctions("", main.value, subs.value));
  }

  /** The walk of `BuildPackage`: one plan per sub-directory, stopping at the first failure. */
  method PlanSubdirectories(binaryPath: string, skipBuild: bool, entries: seq<Entry>, tools: Tools)
    returns (r: Result<map<string, BuildList>, Error>)
    ensures r == Walk(entries, PlanOp(binaryPath, skipBuild, tools))
  {
    var subs: map<string, BuildList> := map[];
    for i := 0 to |entries|
      invariant Walk(entries[..i], PlanOp(binaryPath, skipBuild, tools)) == Ok(subs)
    {
      var e := entries[i];
      assert entries[..i + 1][..i] == entries[..i];
      if e.isDir {
        var res := BuildPackageForDir(Target(e.abs, Cmd, binaryPath, skipBuild), tools);
        assert PlanOp(binaryPath, skipBuild, tools)(e.abs) == res;
        if res.Err? {
          WalkFailureSticks(entries, PlanOp(binaryPath, skipBuild, tools), i + 1);
          return Err(res.error);
        }
        subs := subs[e.rel := res.value];
      }
    }
    assert entries[..|entries|] == entries;
    return Ok(subs);
  }

  /**
   * A successful build plan: the root's directives all lie under the binary
   * path and its programs are compiled into `cmd` (the swapped arguments),
   * while each sub-directory, stored under its relative name and under no
   * other key, has its directives under `cmd` and its programs compiled into
   * the binary path.
   */
  lemma BuildTreeContents(dir: string, binaryPath: string, skipBuild: bool, entries: seq<Entry>, tools: Tools)
    requires BuildTree(dir, binaryPath, skipBuild, entries, tools).Ok?
    ensures var b := BuildTree(dir, binaryPath, skipBuild, entries, tools).value;
      && b.dir == ""
      && Ok(b.main) == PlanDir(RootTarget(dir, binaryPath, skipBuild), tools)
      && Placed(b.main.list, Target(dir, binaryPath, Cmd, skipBuild))
    ensures forall rel :: rel in BuildTree(dir, binaryPath, skipBuild, entries, tools).value.subs <==>
      exists i | 0 <= i < |entries| :: entries[i].isDir && entries[i].rel == rel
    ensures forall i | IsLastNamed(entries, i) ::
      entries[i].rel in BuildTree(dir, binaryPath, skipBuild, entries, tools).value.subs
      && PlanDir(Target(entries[i].abs, Cmd, binaryPath, skipBuild), tools)
         == Ok(BuildTree(dir, binaryPath, skipBuild, entries, tools).value.subs[entries[i].rel])
      && Placed(BuildTree(dir, binaryPath, skipBuild, entries, tools).value.subs[entries[i].rel].list,
                Target(entries[i].abs, Cmd, binaryPath, skipBuild))
  {
    var op := PlanOp(binaryPath, skipBuild, tools);
    PlanDirOutcome(RootTarget(dir, binaryPath, skipBuild), tools);
    WalkKeys(entries, op);
    forall i | IsLastNamed(entries, i)
      ensures entries[i].rel in BuildTree(dir, binaryPath, skipBuild, entries, tools).value.subs
      ensures PlanDir(Target(entries[i].abs, Cmd, binaryPath, skipBuild), tools)
         == Ok(BuildTree(dir, binaryPath, skipBuild, entries, tools).value.subs[entries[i].rel])
      ensures Placed(BuildTree(dir, binaryPath, skipBuild, entries, tools).value.subs[entries[i].rel].list,
                Target(entries[i].abs, Cmd, binaryPath, skipBuild))
    {
      WalkValues(entries, op, i);
      PlanDirOutcome(Target(entries[i].abs, Cmd, binaryPath, skipBuild), tools);
    }
  }

  /**
   * The plan fails exactly when the root or some sub-directory fails; a root
   * failure is returned whatever the listing holds, and otherwise the first
   * failing sub-directory's error is returned.
   */
  lemma BuildTreeFailure(dir: string, binaryPath: string, skipBuild: bool, entries: seq<Entry>, tools: Tools)
    ensures BuildTree(dir, binaryPath, skipBuild, entries, tools).Err? <==>
      PlanDir(RootTarget(dir, binaryPath, skipBuild), tools).Err?
      || exists i | 0 <= i < |entries| :: entries[i].isDir && PlanDir(Target(entries[i].abs, Cmd, binaryPath, skipBuild), tools).Err?
    ensures PlanDir(RootTarget(dir, binaryPath, skipBuild), tools).Err? ==>
      BuildTree(dir, binaryPath, skipBuild, entries, tools) == Err(PlanDir(RootTarget(dir, binaryPath, skipBuild), tools).error)
    ensures forall k | PlanDir(RootTarget(dir, binaryPath, skipBuild), tools).Ok? && IsFirstFailure(entries, PlanOp(binaryPath, skipBuild, tools), k) ::
      BuildTree(dir, binaryPath, skipBuild, entries, tools) == Err(PlanDir(Target(entries[k].abs, Cmd, binaryPath, skipBuild), tools).error)
  {
    var op := PlanOp(binaryPath, skipBuild, tools);
    WalkSucceeds(entries, op);
    forall k | PlanDir(RootTarget(dir, binaryPath, skipBuild), tools).Ok? && IsFirstFailure(entries, op, k)
      ensures BuildTree(dir, binaryPath, skipBuild, entries, tools) == Err(PlanDir(Target(entries[k].abs, Cmd, binaryPath, skipBuild), tools).error)
    {
      WalkFirstFailure(entries, op, k);
    }
  }
}
