/**
 * `main.go`: the helpers of the command line (where programs are installed,
 * package names, file names, reading a stored hash, the `.gitignore` entry)
 * and the rebuild decision of the `build` command.
 */
module Cli {
  import opened Wrappers
  import opened Text
  import opened Collaborators
  import opened Walker
  import opened ListHash
  import opened BuildFunctions

  /** The entry the working directory's `.gitignore` must hold, `ignoreAddition`. */
  const IgnoreEntry: string := ".shogun"

  // ---------------------------------------------------------------------------
  // Small helpers

  /**
   * `binPath`: `SHOGUNBIN` when set, else `GOBIN` when set, else the `bin`
   * directory of `GOPATH`; the variables are passed in.
   */
  function BinPath(shogunBin: string, gobin: string, gopath: string): (r: string)
    ensures r != []
    ensures shogunBin != [] ==> r == shogunBin
    ensures shogunBin == [] && gobin != [] ==> r == gobin
    ensures shogunBin == [] && gobin == [] ==> r == gopath + "/bin"
  {
    if shogunBin == "" && gobin == "" then gopath + "/bin"
    else if shogunBin == "" && gobin != "" then gobin
    else shogunBin
  }

  /** `s` with every non-word character deleted (replacing each run of `\W+` by nothing). */
  function RemoveNonWord(s: string): (r: string)
    ensures |r| <= |s|
    ensures forall i | 0 <= i < |r| :: IsWordChar(r[i])
    ensures (forall i | 0 <= i < |s| :: IsWordChar(s[i])) ==> r == s
  {
    if s == [] then ""
    else
      var p := RemoveNonWord(s[..|s| - 1]);
      assert forall i | 0 <= i < |s| - 1 :: s[..|s| - 1][i] == s[i];
      if IsWordChar(s[|s| - 1]) then p + [s[|s| - 1]] else p
  }

  /** A single character is kept when it is a word character and dropped otherwise. */
  lemma RemoveNonWordChar(c: char)
    ensures RemoveNonWord([c]) == if IsWordChar(c) then [c] else []
  {
    assert [c][..0] == [];
  }

  /** Deletion works piece by piece, so the kept characters stay in their order. */
  lemma {:induction false} RemoveNonWordAppend(a: string, b: string)
    ensures RemoveNonWord(a + b) == RemoveNonWord(a) + RemoveNonWord(b)
    decreases |b|
  {
    if b == [] {
      assert a + b == a;
    } else {
      var n := |b| - 1;
      RemoveNonWordAppend(a, b[..n]);
      var ab := a + b;
      assert ab[..|ab| - 1] == a + b[..n] && ab[|ab| - 1] == b[n];
      var x, y := RemoveNonWord(a), RemoveNonWord(b[..n]);
      if IsWordChar(b[n]) {
        assert RemoveNonWord(ab) == (x + y) + [b[n]];
        assert RemoveNonWord(b) == y + [b[n]];
        assert (x + y) + [b[n]] == x + (y + [b[n]]);
      } else {
        assert RemoveNonWord(ab) == x + y;
        assert RemoveNonWord(b) == y;
      }
    }
  }

  /** A character of a sanitised package name: a digit, a lower-case letter or `_`. */
  predicate IsNameChar(c: char) {
    ('0' <= c <= '9') || ('a' <= c <= 'z') || c == '_'
  }

  /** `toPackageName`: non-word characters removed, the rest lower-cased. */
  function ToPackageName(name: string): (r: string)
    ensures |r| <= |name|
    ensures forall i | 0 <= i < |r| :: IsNameChar(r[i])
    ensures r == ToLower(RemoveNonWord(name))
  {
    var w := RemoveNonWord(name);
    var r := ToLower(w);
    assert forall i | 0 <= i < |r| :: r[i] == LowerChar(w[i]) && IsWordChar(w[i]);
    r
  }

  /** Sanitising a sanitised name changes nothing. */
  lemma ToPackageNameIdempotent(name: string)
    ensures ToPackageName(ToPackageName(name)) == ToPackageName(name)
  {
    var r := ToPackageName(name);
    assert forall i | 0 <= i < |r| :: IsWordChar(r[i]);
    assert RemoveNonWord(r) == r;
    assert forall i | 0 <= i < |r| :: LowerChar(r[i]) == r[i];
  }

  /**
   * The package name `add` writes into new files: `main` with the main flag
   * and no directory, the sanitised directory name with a directory and no
   * main flag, the base of the working directory with neither, and empty
   * with both.
   */
  function PackageNameFor(packageDir: string, mainFlag: bool, currentDir: string): (r: string)
    ensures packageDir == [] && mainFlag ==> r == "main"
    ensures packageDir != [] && !mainFlag ==> r == ToPackageName(packageDir)
    ensures packageDir == [] && !mainFlag ==> r == Base(currentDir) && r != []
    ensures packageDir != [] && mainFlag ==> r == []
  {
    var name := "";
    var name := if packageDir == "" && mainFlag then "main" else name;
    var name := if packageDir != "" && !mainFlag then ToPackageName(packageDir) else name;
    if packageDir == "" && !mainFlag then Base(currentDir) else name
  }

  /** `filepath.Ext`: the suffix from the last `.` of the final path element, or empty. */
  function Ext(path: string): (r: string)
    ensures |r| <= |path| && r == path[|path| - |r|..]
    ensures r != [] ==> r[0] == '.'
    ensures forall k | 0 <= k < |r| :: r[k] != '/'
    ensures forall k | 1 <= k < |r| :: r[k] != '.'
    ensures r == [] <==> '.' !in LastElement(path)
  {
    if path == [] || path[|path| - 1] == '/' then ""
    else if path[|path| - 1] == '.' then "."
    else
      var e := Ext(path[..|path| - 1]);
      assert LastElement(path) == LastElement(path[..|path| - 1]) + [path[|path| - 1]];
      if e == [] then "" else e + [path[|path| - 1]]
  }

  /** The name `add` gives the file for one argument: its extension, if any, replaced by `.go`. */
  function AddFileName(arg: string): (r: string)
    ensures |r| >= 3 && r[|r| - 3..] == ".go"
  {
    var e := Ext(arg);
    arg[..|arg| - |e|] + ".go"
  }

  /** The file name is the argument with its extension taken off and `.go` put on. */
  lemma AddFileNameReplacesExt(arg: string)
    ensures var r := AddFileName(arg);
      |r| == |arg| - |Ext(arg)| + 3 && r[..|r| - 3] + Ext(arg) == arg
  {
    var e := Ext(arg);
    var stem := arg[..|arg| - |e|];
    var r := AddFileName(arg);
    assert r == stem + ".go";
    assert r[..|r| - 3] == stem;
    assert stem + arg[|arg| - |e|..] == arg;
  }

  /** The extension of a name ending in `.go` is `.go`. */
  lemma ExtOfGo(stem: string)
    ensures Ext(stem + ".go") == ".go"
  {
    var r := stem + ".go";
    assert r[..|r| - 1] == stem + ".g";
    assert (stem + ".g")[..|r| - 2] == stem + ".";
    assert Ext(stem + ".") == ".";
    assert Ext(stem + ".g") == ".g";
  }

  /** A name that already ends in `.go` is kept. */
  lemma AddFileNameIdempotent(arg: string)
    ensures AddFileName(AddFileName(arg)) == AddFileName(arg)
  {
    var r := AddFileName(arg);
    var stem := r[..|r| - 3];
    assert r == stem + ".go";
    ExtOfGo(stem);
  }

  /** One name per non-empty argument, in order, each given by `name`. */
  function NamesOf(args: seq<string>, name: string -> string): (names: seq<string>)
    ensures |names| <= |args|
  {
    if args == [] then []
    else
      var p := NamesOf(args[..|args| - 1], name);
      if args[|args| - 1] == "" then p else p + [name(args[|args| - 1])]
  }

  /** The names of two runs of arguments are the names of the first followed by those of the second. */
  lemma {:induction false} NamesOfAppend(a: seq<string>, b: seq<string>, name: string -> string)
    ensures NamesOf(a + b, name) == NamesOf(a, name) + NamesOf(b, name)
    decreases |b|
  {
    if b == [] {
      assert a + b == a;
    } else {
      var n := |b| - 1;
      NamesOfAppend(a, b[..n], name);
      assert (a + b)[..|a + b| - 1] == a + b[..n];
    }
  }

  /** With every argument non-empty, argument k gives name k; with every argument empty, there are none. */
  lemma {:induction false} NamesOfUniform(args: seq<string>, name: string -> string)
    ensures (forall k | 0 <= k < |args| :: args[k] == "") ==> NamesOf(args, name) == []
    ensures (forall k | 0 <= k < |args| :: args[k] != "") ==>
      |NamesOf(args, name)| == |args| && forall k | 0 <= k < |args| :: NamesOf(args, name)[k] == name(args[k])
  {
    if args != [] {
      var n := |args| - 1;
      NamesOfUniform(args[..n], name);
      assert forall k | 0 <= k < n :: args[..n][k] == args[k];
    }
  }

  /** The names `add` writes: one `.go` file name per non-empty argument, in order. */
  function AddFileNames(args: seq<string>): (names: seq<string>)
    ensures |names| <= |args|
  {
    NamesOf(args, AddFileName)
  }

  /** A single argument gives no name when empty and its file name otherwise. */
  lemma AddFileNamesOne(arg: string)
    ensures AddFileNames([arg]) == if arg == "" then [] else [AddFileName(arg)]
  {
    assert [arg][..0] == [];
  }

  /** The names of two runs of arguments are the names of the first followed by those of the second. */
  lemma AddFileNamesAppend(a: seq<string>, b: seq<string>)
    ensures AddFileNames(a + b) == AddFileNames(a) + AddFileNames(b)
  {
    NamesOfAppend(a, b, AddFileName);
  }

  /** With every argument non-empty, argument k names file k; with every argument empty, there are no names. */
  lemma AddFileNamesUniform(args: seq<string>)
    ensures (forall k | 0 <= k < |args| :: args[k] == "") ==> AddFileNames(args) == []
    ensures (forall k | 0 <= k < |args| :: args[k] != "") ==>
      |AddFileNames(args)| == |args| && forall k | 0 <= k < |args| :: AddFileNames(args)[k] == AddFileName(args[k])
  {
    NamesOfUniform(args, AddFileName);
  }

  /**
   * The argument loop of `add`: empty arguments are skipped, every other one
   * names a `.go` file.
   */
  method AddFiles(args: seq<string>) returns (names: seq<string>)
    ensures names == AddFileNames(args)
    ensures forall k | 0 <= k < |names| :: |names[k]| >= 3 && names[k][|names[k]| - 3..] == ".go"
  {
    names := [];
    for i := 0 to |args|
      invariant names == AddFileNames(args[..i])
      invariant forall k | 0 <= k < |names| :: |names[k]| >= 3 && names[k][|names[k]| - 3..] == ".go"
    {
      assert args[..i + 1][..i] == args[..i];
      if args[i] == "" {
        continue;
      }
      names := names + [AddFileName(args[i])];
    }
    assert args[..|args|] == args;
  }

  /** `readFile`: the contents with surrounding white space removed, or nothing when unreadable. */
  function ReadFile(content: Option<string>): (r: Option<string>)
    ensures r.Some? <==> content.Some?
    ensures r.Some? ==> |r.value| <= |content.value|
    ensures r.Some? && r.value != [] ==> !IsSpace(r.value[0]) && !IsSpace(r.value[|r.value| - 1])
    ensures r.Some? ==> r.value == TrimSpace(content.value)
  {
    match content
    case None => None
    case Some(c) => Some(TrimSpace(c))
  }

  /**
   * A stored hash followed by a line break reads back as the hash itself, so
   * it compares equal to a freshly computed one.
   */
  lemma ReadFileOfLine(h: string)
    requires h == [] || (!IsSpace(h[0]) && !IsSpace(h[|h| - 1]))
    ensures ReadFile(Some(h + "\n")) == Some(h)
  {
    var s := h + "\n";
    if h == [] {
      assert TrimLeft(s) == [];
    } else {
      assert TrimLeft(s) == s;
      assert TrimRight(s) == TrimRight(h) by {
        assert s[..|s| - 1] == h;
      }
      assert TrimRight(h) == h;
    }
  }

  // ---------------------------------------------------------------------------
  // The .gitignore entry

  /** The `.gitignore` contents after `checkAndAddIgnore` (None: the file does not exist). */
  function WithIgnore(content: Option<string>): (r: string)
    ensures Contains(r, IgnoreEntry)
    ensures content.Some? && Contains(content.value, IgnoreEntry) ==> r == content.value
    ensures content.Some? ==> |r| >= |content.value| && r[..|content.value|] == content.value
    ensures !(content.Some? && Contains(content.value, IgnoreEntry)) ==> r == content.GetOr("") + IgnoreEntry + "\n"
  {
    var c := content.GetOr("");
    if content.Some? && Contains(c, IgnoreEntry) then c
    else
      var r := c + IgnoreEntry + "\n";
      assert OccursAt(r, IgnoreEntry, |c|);
      r
  }

  /** Adding the entry a second time changes nothing. */
  lemma WithIgnoreIdempotent(content: Option<string>)
    ensures WithIgnore(Some(WithIgnore(content))) == WithIgnore(content)
  {
  }

  /** The working directory's `.gitignore`; None when it does not exist. */
  class IgnoreFile {
    var content: Option<string>

    constructor(content: Option<string>)
      ensures this.content == content
    {
      this.content := content;
    }

    /** `addtoGitIgnore`: creates the file when missing and appends the entry and a newline. */
    method AddToGitIgnore()
      modifies this
      ensures content == Some(old(content).GetOr("") + IgnoreEntry + "\n")
    {
      var c := if content.Some? then content.value else "";
      content := Some(c + IgnoreEntry + "\n");
    }

    /**
     * `checkAndAddIgnore`: a missing file is created with the entry; an
     * existing file gets the entry appended only when it does not mention it.
     */
    method CheckAndAddIgnore()
      modifies this
      ensures content == Some(WithIgnore(old(content)))
    {
      if content.None? {
        AddToGitIgnore();
      }
      var data := content.value;
      if !Contains(data, IgnoreEntry) {
        AddToGitIgnore();
      }
    }
  }

  // ---------------------------------------------------------------------------
  // The rebuild decision

  /**
   * A sub-directory whose stored hash (the hash file kept for its package
   * path, read and trimmed) equals the one just computed for the same key,
   * without `force`.
   */
  predicate UpToDate(sub: BuildList, hashSubs: map<string, HashList>, stored: string -> Option<string>, force: bool) {
    !force && sub.path in hashSubs && ReadFile(stored(sub.pkgPath)) == Some(hashSubs[sub.path].hash)
  }

  /** A sub-directory that is not written: up to date, without a package path, or with nothing to write. */
  predicate Skipped(sub: BuildList, hashSubs: map<string, HashList>, stored: string -> Option<string>, force: bool) {
    UpToDate(sub, hashSubs, stored, force) || sub.pkgPath == "" || |sub.list| == 0
  }

  /** What the sub-directory loop has done: the lists written, the "sub updated" latch, the error that ended it. */
  datatype SubsOutcome = SubsOutcome(writes: seq<seq<Directive>>, updated: bool, err: Option<Error>)

  /**
   * The sub-directory loop of `buildAction` over the keys in the map's
   * iteration order: skipped subs are passed over; every other one sets the
   * latch and is written; the first failing write ends the loop.
   */
  function SubsPhase(order: seq<string>, subs: map<string, BuildList>, hashSubs: map<string, HashList>,
                     stored: string -> Option<string>, write: seq<Directive> -> Option<Error>, force: bool): SubsOutcome
  {
    if order == [] then SubsOutcome([], false, None)
    else
      var n := |order| - 1;
      var p := SubsPhase(order[..n], subs, hashSubs, stored, write, force);
      if p.err.Some? || order[n] !in subs || Skipped(subs[order[n]], hashSubs, stored, force) then p
      else SubsOutcome(p.writes + [subs[order[n]].list], true, write(subs[order[n]].list))
  }

  /** The root is left alone when not forced, its stored hash matches and no sub-directory was written. */
  predicate RootUpToDate(force: bool, mainHash: string, mainPkgPath: string, stored: string -> Option<string>, updated: bool) {
    !force && ReadFile(stored(mainPkgPath)) == Some(mainHash) && !updated
  }

  /**
   * `buildAction` after its set-up, given the outcome of hashing and of
   * planning the target directory: a "skip this directory" error from
   * hashing ends it quietly; other errors are returned; then the
   * sub-directory loop, then the root unless it is up to date.
   */
  function Decide(force: bool, hashes: Result<PackageHashList, Error>, built: Result<BuildFunctions, Error>,
                  order: seq<string>, stored: string -> Option<string>, write: seq<Directive> -> Option<Error>)
    : (seq<seq<Directive>>, Option<Error>)
  {
    match hashes
    case Err(e) => if e == SkipDir then ([], None) else ([], Some(e))
    case Ok(hl) =>
      match built
      case Err(e) => ([], Some(e))
      case Ok(bf) =>
        var o := SubsPhase(order, bf.subs, hl.subs, stored, write, force);
        if o.err.Some? then (o.writes, o.err)
        else if RootUpToDate(force, hl.main.hash, bf.main.pkgPath, stored, o.updated) then (o.writes, None)
        else (o.writes + [bf.main.list], write(bf.main.list))
  }

  lemma {:induction false} SubsPhaseFailureSticks(order: seq<string>, subs: map<string, BuildList>, hashSubs: map<string, HashList>,
                                                  stored: string -> Option<string>, write: seq<Directive> -> Option<Error>, force: bool, i: nat)
    requires i <= |order| && SubsPhase(order[..i], subs, hashSubs, stored, write, force).err.Some?
    ensures SubsPhase(order, subs, hashSubs, stored, write, force) == SubsPhase(order[..i], subs, hashSubs, stored, write, force)
    decreases |order| - i
  {
    if i < |order| {
      assert order[..i + 1][..i] == order[..i];
      SubsPhaseFailureSticks(order, subs, hashSubs, stored, write, force, i + 1);
    } else {
      assert order[..i] == order;
    }
  }

  /**
   * The sub-directory loop of `buildAction`: each key in iteration order is
   * skipped when its stored hash is current, it has no package path or
   * nothing to write; otherwise the latch is set and its list written, and a
   * failing write ends the loop.
   */
  method WriteSubs(order: seq<string>, subs: map<string, BuildList>, hashSubs: map<string, HashList>,
                   stored: string -> Option<string>, write: seq<Directive> -> Option<Error>, force: bool)
    returns (writes: seq<seq<Directive>>, subUpdated: bool, err: Option<Error>)
    ensures SubsOutcome(writes, subUpdated, err) == SubsPhase(order, subs, hashSubs, stored, write, force)
  {
    writes, subUpdated, err := [], false, None;
    for i := 0 to |order|
      invariant SubsPhase(order[..i], subs, hashSubs, stored, write, force) == SubsOutcome(writes, subUpdated, None)
    {
      assert order[..i + 1][..i] == order[..i];
      if order[i] !in subs {
        continue;
      }
      var sub := subs[order[i]];
      if sub.path in hashSubs {
        var prevHash := ReadFile(stored(sub.pkgPath));
        if prevHash.Some? && prevHash.value == hashSubs[sub.path].hash && !force {
          continue;
        }
      }
      if sub.pkgPath == "" || |sub.list| == 0 {
        continue;
      }
      subUpdated := true;
      writes := writes + [sub.list];
      var failed := write(sub.list);
      if failed.Some? {
        SubsPhaseFailureSticks(order, subs, hashSubs, stored, write, force, i + 1);
        return writes, subUpdated, failed;
      }
    }
    assert order[..|order|] == order;
  }

  /**
   * `buildAction` from the hashing result on: the sub-directories in
   * iteration order, each skipped or written, stopping at the first failing
   * write, then the root unless it is up to date.
   */
  method BuildAction(force: bool, hashes: Result<PackageHashList, Error>, built: Result<BuildFunctions, Error>,
                     order: seq<string>, stored: string -> Option<string>, write: seq<Directive> -> Option<Error>)
    returns (writes: seq<seq<Directive>>, err: Option<Error>)
    ensures (writes, err) == Decide(force, hashes, built, order, stored, write)
  {
    if hashes.Err? {
      if hashes.error == SkipDir {
        return [], None;
      }
      return [], Some(hashes.error);
    }
    var hashList := hashes.value;
    if built.Err? {
      return [], Some(built.error);
    }
    var directive := built.value;
    var subUpdated;
    writes, subUpdated, err := WriteSubs(order, directive.subs, hashList.subs, stored, write, force);
    if err.Some? {
      return;
    }
    if !force {
      var prevHash := ReadFile(stored(directive.main.pkgPath));
      if prevHash.Some? && prevHash.value == hashList.main.hash && !subUpdated {
        return writes, None;
      }
    }
    writes := writes + [directive.main.list];
    err := write(directive.main.list);
  }

  /**
   * The loop's outcome: the latch is set exactly when something was written,
   * and every written list is the non-empty list of a sub-directory with a
   * package path.
   */
  lemma {:induction false} SubsPhaseWrites(order: seq<string>, subs: map<string, BuildList>, hashSubs: map<string, HashList>,
                                           stored: string -> Option<string>, write: seq<Directive> -> Option<Error>, force: bool)
    ensures var o := SubsPhase(order, subs, hashSubs, stored, write, force);
      && (o.updated <==> o.writes != [])
      && |o.writes| <= |order|
      && forall k | 0 <= k < |o.writes| :: (o.writes[k] != []
         && exists key | key in subs :: subs[key].list == o.writes[k] && subs[key].pkgPath != "")
  {
    if order != [] {
      SubsPhaseWrites(order[..|order| - 1], subs, hashSubs, stored, write, force);
    }
  }

  /** A key the loop has to write: it is planned and not skipped. */
  predicate NeedsWrite(key: string, subs: map<string, BuildList>, hashSubs: map<string, HashList>,
                       stored: string -> Option<string>, force: bool) {
    key in subs && !Skipped(subs[key], hashSubs, stored, force)
  }

  /** The keys that need writing, in iteration order. */
  function PendingKeys(order: seq<string>, subs: map<string, BuildList>, hashSubs: map<string, HashList>,
                       stored: string -> Option<string>, force: bool): (r: seq<string>)
    ensures |r| <= |order|
    ensures forall k | 0 <= k < |r| :: NeedsWrite(r[k], subs, hashSubs, stored, force)
  {
    if order == [] then []
    else
      var n := |order| - 1;
      var p := PendingKeys(order[..n], subs, hashSubs, stored, force);
      if NeedsWrite(order[n], subs, hashSubs, stored, force) then p + [order[n]] else p
  }

  /** A key is pending exactly when the iteration reaches it and it needs writing. */
  lemma {:induction false} PendingKeysMembers(order: seq<string>, subs: map<string, BuildList>, hashSubs: map<string, HashList>,
                                              stored: string -> Option<string>, force: bool)
    ensures forall key :: key in PendingKeys(order, subs, hashSubs, stored, force) <==>
      key in order && NeedsWrite(key, subs, hashSubs, stored, force)
  {
    if order != [] {
      var n := |order| - 1;
      PendingKeysMembers(order[..n], subs, hashSubs, stored, force);
      assert order == order[..n] + [order[n]];
    }
  }

  /** No key occurs twice. */
  predicate Distinct(keys: seq<string>)
  {
    forall a, b | 0 <= a < b < |keys| :: keys[a] != keys[b]
  }

  /** When the iteration visits each key once, each pending key is pending once. */
  lemma {:induction false} PendingKeysDistinct(order: seq<string>, subs: map<string, BuildList>, hashSubs: map<string, HashList>,
                                               stored: string -> Option<string>, force: bool)
    requires Distinct(order)
    ensures Distinct(PendingKeys(order, subs, hashSubs, stored, force))
  {
    if order != [] {
      var n := |order| - 1;
      assert Distinct(order[..n]);
      PendingKeysDistinct(order[..n], subs, hashSubs, stored, force);
      PendingKeysMembers(order[..n], subs, hashSubs, stored, force);
      assert order[n] !in order[..n];
      var q := PendingKeys(order[..n], subs, hashSubs, stored, force);
      assert order[n] !in q;
      if !NeedsWrite(order[n], subs, hashSubs, stored, force) {
        assert PendingKeys(order, subs, hashSubs, stored, force) == q;
      } else {
        var p := q + [order[n]];
        assert PendingKeys(order, subs, hashSubs, stored, force) == p;
        forall a, b | 0 <= a < b < |p|
          ensures p[a] != p[b]
        {
          assert p[a] == q[a] && q[a] in q;
          if b < |q| {
            assert p[b] == q[b];
          }
        }
      }
    }
  }

  /**
   * The per-key rule of the loop: the lists written are those of the pending
   * keys, in order, up to and including the first whose write fails; every
   * write before the last succeeded; the latch is set exactly when something
   * was written; and the loop ends without error exactly when every pending
   * key was written successfully.
   */
  lemma {:induction false} SubsPhaseRule(order: seq<string>, subs: map<string, BuildList>, hashSubs: map<string, HashList>,
                                         stored: string -> Option<string>, write: seq<Directive> -> Option<Error>, force: bool)
    ensures var o := SubsPhase(order, subs, hashSubs, stored, write, force);
      var p := PendingKeys(order, subs, hashSubs, stored, force);
      && |o.writes| <= |p|
      && (forall k | 0 <= k < |o.writes| :: o.writes[k] == subs[p[k]].list)
      && (o.updated <==> o.writes != [])
      && (forall k | 0 <= k < |o.writes| - 1 :: write(o.writes[k]).None?)
      && (o.err.None? <==> |o.writes| == |p| && forall k | 0 <= k < |p| :: write(subs[p[k]].list).None?)
      && (o.err.Some? ==> o.writes != [] && o.err == write(o.writes[|o.writes| - 1]))
  {
    if order != [] {
      var n := |order| - 1;
      SubsPhaseRule(order[..n], subs, hashSubs, stored, write, force);
    }
  }

  /**
   * Ranging over the map visits every key of `subs` once. Then every key
   * whose list is written is a key that needs writing, the keys written
   * come in visiting order, none is written twice, and a loop that ends
   * without error wrote every key that is not skipped and set the latch
   * exactly when there was such a key.
   */
  lemma SubsPhaseEachKey(order: seq<string>, subs: map<string, BuildList>, hashSubs: map<string, HashList>,
                         stored: string -> Option<string>, write: seq<Directive> -> Option<Error>, force: bool)
    requires Distinct(order)
    requires forall key :: key in order <==> key in subs
    ensures var o := SubsPhase(order, subs, hashSubs, stored, write, force);
      var p := PendingKeys(order, subs, hashSubs, stored, force);
      && Distinct(p)
      && |o.writes| <= |p|
      && (forall key | key in subs :: key in p <==> !Skipped(subs[key], hashSubs, stored, force))
      && (forall k | 0 <= k < |o.writes| :: p[k] in subs && !Skipped(subs[p[k]], hashSubs, stored, force)
                                           && o.writes[k] == subs[p[k]].list)
      && (o.err.None? ==> |o.writes| == |p|
                          && (o.updated <==> exists key | key in subs :: !Skipped(subs[key], hashSubs, stored, force)))
  {
    PendingKeysMembers(order, subs, hashSubs, stored, force);
    PendingKeysDistinct(order, subs, hashSubs, stored, force);
    SubsPhaseRule(order, subs, hashSubs, stored, write, force);
    var o := SubsPhase(order, subs, hashSubs, stored, write, force);
    var p := PendingKeys(order, subs, hashSubs, stored, force);
    if o.err.None? && o.updated {
      assert p[0] in p;
    }
  }

  /** Sub-directories without a package path are never written, whatever the hashes and the flag say. */
  lemma {:induction false} SubsWithoutPackagePath(order: seq<string>, subs: map<string, BuildList>, hashSubs: map<string, HashList>,
                                                  stored: string -> Option<string>, write: seq<Directive> -> Option<Error>, force: bool)
    requires forall key | key in subs :: subs[key].pkgPath == ""
    ensures SubsPhase(order, subs, hashSubs, stored, write, force) == SubsOutcome([], false, None)
  {
    if order != [] {
      SubsWithoutPackagePath(order[..|order| - 1], subs, hashSubs, stored, write, force);
    }
  }

  /**
   * When no sub-directory needs writing and the root's stored hash matches,
   * without `force`, nothing is written and nothing fails.
   */
  lemma DecideUnchanged(hl: PackageHashList, bf: BuildFunctions, order: seq<string>,
                        stored: string -> Option<string>, write: seq<Directive> -> Option<Error>)
    requires forall key | key in bf.subs :: Skipped(bf.subs[key], hl.subs, stored, false)
    requires ReadFile(stored(bf.main.pkgPath)) == Some(hl.main.hash)
    ensures Decide(false, Ok(hl), Ok(bf), order, stored, write) == ([], None)
  {
    SubsAllSkipped(order, bf.subs, hl.subs, stored, write, false);
  }

  lemma {:induction false} SubsAllSkipped(order: seq<string>, subs: map<string, BuildList>, hashSubs: map<string, HashList>,
                                          stored: string -> Option<string>, write: seq<Directive> -> Option<Error>, force: bool)
    requires forall key | key in subs :: Skipped(subs[key], hashSubs, stored, force)
    ensures SubsPhase(order, subs, hashSubs, stored, write, force) == SubsOutcome([], false, None)
  {
    if order != [] {
      SubsAllSkipped(order[..|order| - 1], subs, hashSubs, stored, write, force);
    }
  }

  /**
   * The root rule: when the sub-directory loop ends without error, the
   * root's list is written last exactly when `force` is on, its stored hash
   * cannot be read or differs, or some sub-directory was written.
   */
  lemma DecideRoot(force: bool, hl: PackageHashList, bf: BuildFunctions, order: seq<string>,
                   stored: string -> Option<string>, write: seq<Directive> -> Option<Error>)
    requires SubsPhase(order, bf.subs, hl.subs, stored, write, force).err.None?
    ensures var o := SubsPhase(order, bf.subs, hl.subs, stored, write, force);
      var d := Decide(force, Ok(hl), Ok(bf), order, stored, write);
      && d.0[..|o.writes|] == o.writes
      && (|d.0| == |o.writes| + 1 <==> force || ReadFile(stored(bf.main.pkgPath)) != Some(hl.main.hash) || o.updated)
      && (|d.0| == |o.writes| + 1 ==> d.0[|o.writes|] == bf.main.list && d.1 == write(bf.main.list))
      && (|d.0| != |o.writes| + 1 ==> d == (o.writes, None))
  {
  }

  /**
   * As written, a planned tree never has a sub-directory written: its lists
   * never carry a package path, so the sub-directory loop writes nothing,
   * leaves the latch off and cannot fail.
   */
  lemma AsWrittenSubsNeverWritten(dir: string, binaryPath: string, skipBuild: bool, entries: seq<Entry>, tools: Tools,
                                  order: seq<string>, hashSubs: map<string, HashList>,
                                  stored: string -> Option<string>, write: seq<Directive> -> Option<Error>, force: bool)
    requires BuildTree(dir, binaryPath, skipBuild, entries, tools).Ok?
    ensures SubsPhase(order, BuildTree(dir, binaryPath, skipBuild, entries, tools).value.subs, hashSubs, stored, write, force)
      == SubsOutcome([], false, None)
  {
    var op := PlanOp(binaryPath, skipBuild, tools);
    var P := (b: BuildList) => b.pkgPath == "";
    forall i | 0 <= i < |entries| && entries[i].isDir && op(entries[i].abs).Ok?
      ensures P(op(entries[i].abs).value)
    {
      PlanDirOutcome(Target(entries[i].abs, Cmd, binaryPath, skipBuild), tools);
    }
    WalkAll(entries, op, P);
    SubsWithoutPackagePath(order, BuildTree(dir, binaryPath, skipBuild, entries, tools).value.subs, hashSubs, stored, write, force);
  }

  /**
   * As written, the stored-hash check of a sub-directory never applies: the
   * planned lists carry the sub-directory's absolute path, while the hashes
   * are keyed by relative name, so when no absolute path of the listing is
   * also a relative name the lookup always misses.
   */
  lemma AsWrittenHashLookupMisses(dir: string, binaryPath: string, skipBuild: bool, entries: seq<Entry>, tools: Tools,
                                  stored: string -> Option<string>, force: bool)
    requires ListHashes(dir, entries, tools).Ok? && BuildTree(dir, binaryPath, skipBuild, entries, tools).Ok?
    requires forall i, j | 0 <= i < |entries| && 0 <= j < |entries| :: entries[i].abs != entries[j].rel
    ensures var hl := ListHashes(dir, entries, tools).value;
      var bf := BuildTree(dir, binaryPath, skipBuild, entries, tools).value;
      forall key | key in bf.subs :: !UpToDate(bf.subs[key], hl.subs, stored, force)
  {
    var hl := ListHashes(dir, entries, tools).value;
    var op := PlanOp(binaryPath, skipBuild, tools);
    var P := (b: BuildList) => exists i | 0 <= i < |entries| :: entries[i].isDir && b.path == entries[i].abs;
    forall i | 0 <= i < |entries| && entries[i].isDir && op(entries[i].abs).Ok?
      ensures P(op(entries[i].abs).value)
    {
      PlanDirOutcome(Target(entries[i].abs, Cmd, binaryPath, skipBuild), tools);
    }
    WalkAll(entries, op, P);
    ListHashesContents(dir, entries, tools);
  }
}
