/**
 * `list-hash.go`: the fingerprints of one directory's packages, joined into a
 * directory hash and indexed by package path, and the one-level walk that
 * hashes the root and each of its immediate sub-directories.
 */
module ListHash {
  import opened Wrappers
  import opened Collaborators
  import opened Hashing
  import opened Walker

  /** The hashes found in one directory. */
  datatype HashList = HashList(path: string, hash: string, packages: map<string, string>)

  /** The root's hashes and those of each immediate sub-directory, keyed by relative name. */
  datatype PackageHashList = PackageHashList(dir: string, main: HashList, subs: map<string, HashList>)

  /**
   * The package loop of `HashPackages` folded over the packages in order,
   * given the fingerprint of a file list (`FingerprintOp`): each fingerprint
   * is appended to the hash and stored under the package's path; the first
   * package that cannot be fingerprinted ends the fold.
   */
  function HashFold(dir: string, pkgs: seq<Package>, fp: seq<string> -> Result<string, Error>): Result<HashList, Error>
  {
    if pkgs == [] then Ok(HashList(dir, "", map[]))
    else
      var n := |pkgs| - 1;
      var p := HashFold(dir, pkgs[..n], fp);
      if p.Err? then p
      else match fp(pkgs[n].files)
        case Err(e) => Err(e)
        case Ok(h) => Ok(HashList(dir, p.value.hash + h, p.value.packages[pkgs[n].path := h]))
  }

  /** The package fingerprint, as the fold receives it. */
  function FingerprintOp(digest: string -> Option<Hex40>): seq<string> -> Result<string, Error> {
    files => Fingerprint(files, digest)
  }

  /** `HashPackages` on one directory, given what the parser reports for it. */
  function HashDir(dir: string, tools: Tools): Result<HashList, Error>
  {
    match tools.parse(dir)
    case NoGoFiles => Ok(HashList(dir, "", map[]))
    case Failed(e) => Err(e)
    case Parsed(pkgs) => HashFold(dir, pkgs, FingerprintOp(tools.digest))
  }

  /** The strings joined head first: the reference the fold is compared with. */
  function JoinAll(fs: seq<string>): string
  {
    if fs == [] then "" else fs[0] + JoinAll(fs[1..])
  }

  lemma {:induction false} JoinAllSnoc(fs: seq<string>, x: string)
    ensures JoinAll(fs + [x]) == JoinAll(fs) + x
  {
    if fs != [] {
      assert (fs + [x])[1..] == fs[1..] + [x];
      JoinAllSnoc(fs[1..], x);
    }
  }

  /** `i` is the last package with its import path. */
  predicate IsLastPath(pkgs: seq<Package>, i: int) {
    0 <= i < |pkgs| && forall j | i < j < |pkgs| :: pkgs[j].path != pkgs[i].path
  }

  /** The fold succeeds exactly when every package can be fingerprinted. */
  lemma {:induction false} HashFoldSucceeds(dir: string, pkgs: seq<Package>, fp: seq<string> -> Result<string, Error>)
    ensures HashFold(dir, pkgs, fp).Ok? <==> forall i | 0 <= i < |pkgs| :: fp(pkgs[i].files).Ok?
  {
    if pkgs != [] {
      var n := |pkgs| - 1;
      HashFoldSucceeds(dir, pkgs[..n], fp);
      assert forall i | 0 <= i < n :: pkgs[..n][i] == pkgs[i];
    }
  }

  /** The fingerprints of all packages, in order. */
  predicate FingerprintsAre(pkgs: seq<Package>, fp: seq<string> -> Result<string, Error>, fps: seq<string>) {
    |fps| == |pkgs| && forall i | 0 <= i < |pkgs| :: fp(pkgs[i].files) == Ok(fps[i])
  }

  lemma FingerprintsArePrefix(pkgs: seq<Package>, fp: seq<string> -> Result<string, Error>, fps: seq<string>)
    requires FingerprintsAre(pkgs, fp, fps) && pkgs != []
    ensures FingerprintsAre(pkgs[..|pkgs| - 1], fp, fps[..|fps| - 1])
  {
    var n := |pkgs| - 1;
    assert forall i | 0 <= i < n :: pkgs[..n][i] == pkgs[i];
  }

  /** With fingerprints `fps`, the directory hash is their in-order concatenation, with no re-encoding. */
  lemma {:induction false} HashFoldHash(dir: string, pkgs: seq<Package>, fp: seq<string> -> Result<string, Error>, fps: seq<string>)
    requires FingerprintsAre(pkgs, fp, fps)
    ensures HashFold(dir, pkgs, fp).Ok?
    ensures HashFold(dir, pkgs, fp).value.hash == JoinAll(fps)
  {
    if pkgs != [] {
      var n := |pkgs| - 1;
      assert fps[..n] + [fps[n]] == fps;
      FingerprintsArePrefix(pkgs, fp, fps);
      HashFoldHash(dir, pkgs[..n], fp, fps[..n]);
      JoinAllSnoc(fps[..n], fps[n]);
    }
  }

  /** A successful fold has one key per package path and no other. */
  lemma {:induction false} HashFoldKeys(dir: string, pkgs: seq<Package>, fp: seq<string> -> Result<string, Error>)
    requires HashFold(dir, pkgs, fp).Ok?
    ensures forall p :: p in HashFold(dir, pkgs, fp).value.packages <==>
      exists i | 0 <= i < |pkgs| :: pkgs[i].path == p
  {
    if pkgs != [] {
      var n := |pkgs| - 1;
      HashFoldKeys(dir, pkgs[..n], fp);
      assert forall i | 0 <= i < n :: pkgs[..n][i] == pkgs[i];
    }
  }

  /** Each path maps to the fingerprint of the last package with that path: later packages overwrite. */
  lemma {:induction false} HashFoldLastWins(dir: string, pkgs: seq<Package>, fp: seq<string> -> Result<string, Error>, i: nat)
    requires HashFold(dir, pkgs, fp).Ok? && IsLastPath(pkgs, i)
    ensures pkgs[i].path in HashFold(dir, pkgs, fp).value.packages
    ensures fp(pkgs[i].files) == Ok(HashFold(dir, pkgs, fp).value.packages[pkgs[i].path])
  {
    var n := |pkgs| - 1;
    HashFoldSucceeds(dir, pkgs[..n], fp);
    if i < n {
      assert IsLastPath(pkgs[..n], i);
      HashFoldLastWins(dir, pkgs[..n], fp, i);
    }
  }

  /** The first package that cannot be fingerprinted decides the error; later ones are not hashed. */
  lemma {:induction false} HashFoldFirstFailure(dir: string, pkgs: seq<Package>, fp: seq<string> -> Result<string, Error>, k: nat)
    requires k < |pkgs| && fp(pkgs[k].files).Err?
    requires forall j | 0 <= j < k :: fp(pkgs[j].files).Ok?
    ensures HashFold(dir, pkgs, fp) == Err(fp(pkgs[k].files).error)
  {
    var n := |pkgs| - 1;
    if k < n {
      HashFoldFirstFailure(dir, pkgs[..n], fp, k);
    } else {
      HashFoldSucceeds(dir, pkgs[..n], fp);
    }
  }

  lemma {:induction false} HashFoldFailureSticks(dir: string, pkgs: seq<Package>, fp: seq<string> -> Result<string, Error>, i: nat)
    requires i <= |pkgs| && HashFold(dir, pkgs[..i], fp).Err?
    ensures HashFold(dir, pkgs, fp) == HashFold(dir, pkgs[..i], fp)
    decreases |pkgs| - i
  {
    if i < |pkgs| {
      assert pkgs[..i + 1][..i] == pkgs[..i];
      HashFoldFailureSticks(dir, pkgs, fp, i + 1);
    } else {
      assert pkgs[..i] == pkgs;
    }
  }

  /**
   * `HashPackages`: a directory without Go source has an empty hash and map;
   * a parse failure is passed on; otherwise each package's fingerprint is
   * stored under its path and appended to the hash, and the first failing
   * package aborts with its error.
   */
  method HashPackages(dir: string, tools: Tools) returns (r: Result<HashList, Error>)
    ensures r == HashDir(dir, tools)
  {
    var packages: map<string, string> := map[];
    match tools.parse(dir)
    case NoGoFiles =>
      return Ok(HashList(dir, "", packages));
    case Failed(e) =>
      return Err(e);
    case Parsed(pkgs) =>
      var hash := "";
      for i := 0 to |pkgs|
        invariant HashFold(dir, pkgs[..i], FingerprintOp(tools.digest)) == Ok(HashList(dir, hash, packages))
      {
        var pkgHash := GenerateHash(pkgs[i].files, tools.digest);
        assert FingerprintOp(tools.digest)(pkgs[i].files) == pkgHash;
        assert pkgs[..i + 1][..i] == pkgs[..i];
        if pkgHash.Err? {
          HashFoldFailureSticks(dir, pkgs, FingerprintOp(tools.digest), i + 1);
          return Err(pkgHash.error);
        }
        packages := packages[pkgs[i].path := pkgHash.value];
        hash := hash + pkgHash.value;
      }
      assert pkgs[..|pkgs|] == pkgs;
      return Ok(HashList(dir, hash, packages));
  }

  /**
   * What `HashPackages` reports for a directory: it succeeds exactly when the
   * parser does not fail and every package can be fingerprinted; a directory
   * without Go source yields its own path, an empty hash and an empty map.
   */
  lemma HashDirOutcome(dir: string, tools: Tools)
    ensures HashDir(dir, tools).Ok? <==>
      match tools.parse(dir)
      case NoGoFiles => true
      case Failed(_) => false
      case Parsed(pkgs) => forall i | 0 <= i < |pkgs| :: Fingerprint(pkgs[i].files, tools.digest).Ok?
    ensures HashDir(dir, tools).Ok? ==> HashDir(dir, tools).value.path == dir
    ensures tools.parse(dir).NoGoFiles? ==> HashDir(dir, tools) == Ok(HashList(dir, "", map[]))
  {
    if tools.parse(dir).Parsed? {
      var pkgs := tools.parse(dir).pkgs;
      HashFoldSucceeds(dir, pkgs, FingerprintOp(tools.digest));
      if HashDir(dir, tools).Ok? {
        HashFoldPath(dir, pkgs, FingerprintOp(tools.digest));
      }
    }
  }

  lemma {:induction false} HashFoldPath(dir: string, pkgs: seq<Package>, fp: seq<string> -> Result<string, Error>)
    requires HashFold(dir, pkgs, fp).Ok?
    ensures HashFold(dir, pkgs, fp).value.path == dir
  {
    if pkgs != [] {
      HashFoldPath(dir, pkgs[..|pkgs| - 1], fp);
    }
  }

  /** The per-directory operation of the walk. */
  function HashOp(tools: Tools): string -> Result<HashList, Error> {
    d => HashDir(d, tools)
  }

  /** `ListPackageHash`: the root first, then the one-level walk. */
  function ListHashes(dir: string, entries: seq<Entry>, tools: Tools): Result<PackageHashList, Error>
  {
    match HashDir(dir, tools)
    case Err(e) => Err(e)
    case Ok(main) =>
      match Walk(entries, HashOp(tools))
      case Err(e) => Err(e)
      case Ok(subs) => Ok(PackageHashList(dir, main, subs))
  }

  /**
   * `ListPackageHash`: hashes the root; on failure returns at once without
   * looking at the listing; otherwise hashes each sub-directory entry in
   * listing order, skipping plain files, and stops at the first failure.
   */
  method ListPackageHash(dir: string, entries: seq<Entry>, tools: Tools) returns (r: Result<PackageHashList, Error>)
    ensures r == ListHashes(dir, entries, tools)
  {
    var main := HashPackages(dir, tools);
    if main.Err? {
      return Err(main.error);
    }
    var subs: map<string, HashList> := map[];
    for i := 0 to |entries|
      invariant Walk(entries[..i], HashOp(tools)) == Ok(subs)
    {
      var e := entries[i];
      assert entries[..i + 1][..i] == entries[..i];
      if e.isDir {
        var res := HashPackages(e.abs, tools);
        assert HashOp(tools)(e.abs) == HashDir(e.abs, tools);
        if res.Err? {
          WalkFailureSticks(entries, HashOp(tools), i + 1);
          return Err(res.error);
        }
        subs := subs[e.rel := res.value];
      }
    }
    assert entries[..|entries|] == entries;
    return Ok(PackageHashList(dir, main.value, subs));
  }

  /**
   * A successful listing holds the root's own hashes and, under each
   * sub-directory's relative name and no other key, the hashes of that
   * (last listed) sub-directory: one level deep, plain files ignored.
   */
  lemma ListHashesContents(dir: string, entries: seq<Entry>, tools: Tools)
    requires ListHashes(dir, entries, tools).Ok?
    ensures ListHashes(dir, entries, tools).value.dir == dir
    ensures Ok(ListHashes(dir, entries, tools).value.main) == HashDir(dir, tools)
    ensures forall rel :: rel in ListHashes(dir, entries, tools).value.subs <==>
      exists i | 0 <= i < |entries| :: entries[i].isDir && entries[i].rel == rel
    ensures forall i | IsLastNamed(entries, i) ::
      entries[i].rel in ListHashes(dir, entries, tools).value.subs
      && HashDir(entries[i].abs, tools) == Ok(ListHashes(dir, entries, tools).value.subs[entries[i].rel])
  {
    WalkKeys(entries, HashOp(tools));
    forall i | IsLastNamed(entries, i)
      ensures entries[i].rel in ListHashes(dir, entries, tools).value.subs
      ensures HashDir(entries[i].abs, tools) == Ok(ListHashes(dir, entries, tools).value.subs[entries[i].rel])
    {
      WalkValues(entries, HashOp(tools), i);
    }
  }

  /**
   * The listing fails exactly when the root or some sub-directory fails; a
   * root failure is returned whatever the listing holds, and otherwise the
   * first failing sub-directory's error is returned.
   */
  lemma ListHashesFailure(dir: string, entries: seq<Entry>, tools: Tools)
    ensures ListHashes(dir, entries, tools).Err? <==>
      HashDir(dir, tools).Err? || exists i | 0 <= i < |entries| :: entries[i].isDir && HashDir(entries[i].abs, tools).Err?
    ensures HashDir(dir, tools).Err? ==> ListHashes(dir, entries, tools) == Err(HashDir(dir, tools).error)
    ensures forall k | HashDir(dir, tools).Ok? && IsFirstFailure(entries, HashOp(tools), k) ::
      ListHashes(dir, entries, tools) == Err(HashDir(entries[k].abs, tools).error)
  {
    WalkSucceeds(entries, HashOp(tools));
    forall k | HashDir(dir, tools).Ok? && IsFirstFailure(entries, HashOp(tools), k)
      ensures ListHashes(dir, entries, tools) == Err(HashDir(entries[k].abs, tools).error)
    {
      WalkFirstFailure(entries, HashOp(tools), k);
    }
  }
}
