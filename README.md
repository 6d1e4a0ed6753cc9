# shogun build planning, modelled in Dafny

shogun turns Go packages whose files carry the `shogun` build tag into
command-line programs. A package's exported functions become commands.
The `build` command has these parts:

- **Hashing.** Each package in the target directory, and in each of its
  immediate sub-directories, gets a fingerprint: the Base 64 encoding
  (section 4 of RFC 4648) of the hex SHA-1 digests of its files, in
  order.
- **Planning.** For every package it plans the files to write:
  - one source file per package file, with the package clause stripped;
  - a `pkg_<binary>.go` listing the functions;
  - a `main.go` whose after-write hook compiles the program and then
    removes the generated build directory.
- **Deciding.** It writes the plans of the sub-directories, then the
  root's, skipping any whose stored hash matches the one just computed,
  unless `--force` is given.

The model covers four source files:

| module | file | what it models |
|---|---|---|
| `Functions` | `internals/functions.go` | the code constants, the template predicates and the `PackageFunctions` queries |
| `Hashing`, `ListHash` | `internal/samurai/list-hash.go` and the hash helpers of `build-functions.go` | the fingerprints and the hash walk |
| `BuildFunctions` | `internal/samurai/build-functions.go` | the per-directory planner and the one-level walk |
| `Cli` | `main.go` | the helpers of the command line and the rebuild decision of `buildAction` |

The remaining modules support these:

- `Wrappers`: `Option` and `Result`.
- `Text`: the Go library string and path functions the core uses.
- `Base64`: the encoder, with a decoder to prove it injective.
- `Collaborators`: what the parser, the file system and SHA-1 supply, passed in as values and functions.
- `Walker`: the one-level directory walk shared by hashing and planning.

Code that builds values step by step is written as methods:

- `GenerateHash`, `HashPackages`, `ListPackageHash`, `PlanDeclarations`,
  `PlanAllPackages`, `PlanSubdirectories`, `BuildPackage`, `WriteSubs` and
  `AddFiles` are loops. Each is proved equal to a prefix-recursive
  specification function.
- `PlanOnePackage`, `BuildPackageForDir` and `BuildAction` are proved equal
  to the non-recursive functions `PlanPackage`, `PlanDir` and `Decide`,
  which in turn call the recursive ones.
- `Imports`, `PrintSpaceLine` and `SpaceFor` state their results directly
  in their postconditions.

The package and sub-directory loops of `BuildPackageForDir` and
`BuildPackage` are methods of their own, which those two call. The
`.gitignore` file, which `checkAndAddIgnore` updates in place, is a class.

The model follows the code as written, including these points:

- The root call of `BuildPackage` (build-functions.go:47) passes
  `binaryPath` where `BuildPackageForDir` expects the command directory,
  and the command directory where it expects `binaryPath`. The
  sub-directory calls (line 58) pass them the right way round.
  `RootTarget` keeps the swap, and `BuildTreeContents` states where the
  root's files are placed because of it.
- `BuildPackageForDir` never sets `Hash`, `PkgPath` or `PkgFilePath`, and
  `BuildPackage` never sets `Dir`. `PlanDirOutcome` proves them empty.
  `Cli.AsWrittenSubsNeverWritten` proves that, as a result, `buildAction`
  never writes a sub-directory.
- `list.Functions` accumulates across all packages of a directory. Each
  `pkg_<binary>.go` therefore receives the functions of every package
  planned so far.
- `buildAction` looks up a sub-directory's hash by its absolute path
  (main.go:474), but the hashes are keyed by relative name.
  `Cli.AsWrittenHashLookupMisses` proves that this lookup misses.
- Iterating over the Go map of sub-directories happens in an unspecified
  order. The model takes that order as an input sequence.
- When a source has no `package` keyword, `source[packageIndex:]` with
  index -1 panics. It is modelled as the error `NoPackageClause`.
- In `SpaceFor`, the negation branch for lengths below -1 can never be
  taken. The result is always the base width plus the difference in
  name length.
- A failing sub-directory write returns from `buildAction` at once, and
  the remaining sub-directories are not attempted.
  `SubsPhaseFailureSticks` and `SubsPhaseRule` state this.

## Model

| member | source | states |
|---|---|---|
| Functions.CodeGroupsDisjoint | internals/functions.go:13-49 | the return, export, context and argument codes are consecutive runs starting at 1, 5, 8 and 15, of sizes 3, 2, 4 and 14, and every group lies below the next, so no code means two things |
| Functions.AtMostOneTestHolds | internals/functions.go:51-112 | each template predicate accepts at most one code, and no two predicates accept the same code |
| Functions.Default | internals/functions.go:171-180 | empty exactly when no function is marked default, otherwise the one-element list of the first default function |
| Functions.EarliestDefaultWins | internals/functions.go:171-180 | when function i is a default, `Default` returns a default function at or before i |
| Functions.FirstDefaultExists | internals/functions.go:171-180 | when any function is a default, there is a first one |
| Functions.UsesContext | internals/functions.go:182-202 | true exactly when some function has the given context code |
| Functions.HasFauxImports | internals/functions.go:182-191 | true exactly when some function uses the faux cancel context |
| Functions.HasGoogleImports | internals/functions.go:193-202 | true exactly when some function uses the Google context |
| Functions.Imports | internals/functions.go:204-219 | the keys are exactly the non-empty import paths of the functions, and each maps to the nick of the first function carrying that path |
| Functions.PrintSpaceLine | internals/functions.go:242-250 | a string of `length` spaces, or empty for a non-positive length |
| Functions.SpaceFor | internals/functions.go:221-240 | spaces only, 7 plus the absolute difference between the name length and the longest name length |
| Text.TrimSpace | main.go:555-558 | no longer than the input, and the result neither starts nor ends with white space |
| Text.TrimSpaceRemovesOnlySpace | main.go:555-558 | the input is white space, then the result, then white space: nothing else is removed |
| Text.TrimSpaceIdempotent | main.go:555-558 | trimming twice is trimming once |
| Text.ToLower | main.go:572-574 | same length; each upper-case ASCII letter is lowered and every other character is kept |
| Text.Index | internal/samurai/build-functions.go:139 | -1 exactly when the pattern does not occur, otherwise the first position where it occurs |
| Text.RemoveAll | internal/samurai/build-functions.go:138 | never longer than the input, and the identity when the pattern does not occur |
| Text.RemoveFirst | internal/samurai/build-functions.go:143 | cuts out the first occurrence of the pattern and keeps everything else; the identity when there is none |
| Text.Base | internal/samurai/build-functions.go:146 | never empty, and "." for the empty path |
| Text.BaseIsElement | internal/samurai/build-functions.go:146 | the base is "/" or contains no slash |
| Text.BaseOfJoin | internal/samurai/build-functions.go:146 | the base of `dir/name` is `name` for a slash-free name |
| Text.LastElementHasNoSlash | internal/samurai/build-functions.go:146 | the last path element contains no slash |
| Text.LastElementAfterSlash | internal/samurai/build-functions.go:146 | the last element of `dir/name` is `name` for a slash-free name |
| Base64.Encode | internal/samurai/build-functions.go:237 | empty exactly for empty input |
| Base64.EncodeLength | internal/samurai/build-functions.go:237 | output length is 4 for every started group of 3 bytes |
| Base64.EncodeSplit | internal/samurai/build-functions.go:237 | three or more bytes encode as a full group and then the encoding of the rest |
| Base64.DecodeFirstGroup | internal/samurai/build-functions.go:237 | a leading four-character group is decoded on its own, then the rest |
| Base64.DecodeEncodeSingle | internal/samurai/build-functions.go:237 | a final group of one byte decodes back to that byte |
| Base64.DecodeEncodePair | internal/samurai/build-functions.go:237 | a final group of two bytes decodes back to those bytes |
| Base64.DecodeTripleThenRest | internal/samurai/build-functions.go:237 | a full encoded group followed by other text decodes to the three bytes and then that text's bytes |
| Base64.DecodeEncodeStep | internal/samurai/build-functions.go:237 | the round trip for the rest extends to the round trip for three more bytes in front |
| Base64.DecodeEncode | internal/samurai/build-functions.go:237 | decoding the encoding gives back the bytes |
| Base64.EncodeInjective | internal/samurai/build-functions.go:237 | different byte strings have different encodings |
| Hashing.Digests | internal/samurai/build-functions.go:225-255 | succeeds exactly when every file can be digested, holding one digest per file in order; otherwise the error names the first file that cannot be read |
| Hashing.DigestsFailureSticks | internal/samurai/build-functions.go:228-233 | once a file fails, later files do not change the result |
| Hashing.Concat | internal/samurai/build-functions.go:235 | 40 lower-case hex characters per digest |
| Hashing.ConcatBlock | internal/samurai/build-functions.go:235 | block k of the joined text is digest k |
| Hashing.ConcatInjective | internal/samurai/build-functions.go:235 | the joined text determines the digest list |
| Hashing.GenerateHash | internal/samurai/build-functions.go:225-238 | the loop returns the fingerprint: the error of the first unreadable file, or the encoding of the joined digests |
| Hashing.FingerprintOfReadableFiles | internal/samurai/build-functions.go:225-238 | for readable files, the encoded text holds each file's digest at block k, and no files give the empty fingerprint |
| Hashing.FingerprintFirstFailure | internal/samurai/build-functions.go:228-233 | the first unreadable file decides the error |
| Hashing.FingerprintDeterminesDigests | internal/samurai/build-functions.go:225-238 | two fingerprints are equal exactly when the digest lists are equal, including their order |
| Walker.WalkSucceeds | internal/samurai/list-hash.go:34-49 | the walk succeeds exactly when the operation succeeds on every sub-directory; plain files are skipped |
| Walker.WalkKeys | internal/samurai/list-hash.go:34-49 | the result has one key per sub-directory name and no other |
| Walker.WalkValues | internal/samurai/list-hash.go:44 | each name holds the result of the last sub-directory listed under it |
| Walker.WalkFirstFailure | internal/samurai/list-hash.go:39-42 | the first failing sub-directory's error is the walk's error |
| Walker.WalkFailureSticks | internal/samurai/list-hash.go:39-42 | once the walk has failed, later entries do not change the result |
| Walker.WalkAll | internal/samurai/build-functions.go:53-69 | a property of every successful operation result holds for every stored result |
| ListHash.JoinAllSnoc | internal/samurai/list-hash.go:87 | appending a fingerprint appends its text to the directory hash |
| ListHash.HashFoldSucceeds | internal/samurai/list-hash.go:80-88 | hashing a directory's packages succeeds exactly when every package can be fingerprinted |
| ListHash.FingerprintsArePrefix | internal/samurai/list-hash.go:80-88 | the fingerprints of a prefix of the packages are a prefix of the fingerprints |
| ListHash.HashFoldHash | internal/samurai/list-hash.go:87-90 | the directory hash is the package fingerprints joined in order |
| ListHash.HashFoldKeys | internal/samurai/list-hash.go:86 | the package map's keys are exactly the package import paths |
| ListHash.HashFoldLastWins | internal/samurai/list-hash.go:86 | each path maps to the fingerprint of the last package with that path |
| ListHash.HashFoldFirstFailure | internal/samurai/list-hash.go:81-84 | the first package that cannot be fingerprinted decides the error |
| ListHash.HashFoldFailureSticks | internal/samurai/list-hash.go:81-84 | once a package fails, later ones do not change the result |
| ListHash.HashFoldPath | internal/samurai/list-hash.go:65 | the hash list records the directory it was computed for |
| ListHash.HashPackages | internal/samurai/list-hash.go:61-93 | the loop computes `HashDir`: no Go files gives an empty list, a parse error is returned, and otherwise the fold of the fingerprints |
| ListHash.HashDirOutcome | internal/samurai/list-hash.go:68-76 | succeeds exactly when parsing does not fail and every package can be fingerprinted; records the directory; empty for a directory without Go files |
| ListHash.ListPackageHash | internal/samurai/list-hash.go:20-52 | the walk computes `ListHashes`: the root first, then each sub-directory |
| ListHash.ListHashesContents | internal/samurai/list-hash.go:20-52 | records the target; the root's entry is its hash list; the sub-directory keys are exactly the directory names, each holding the hash list of its last listed directory |
| ListHash.ListHashesFailure | internal/samurai/list-hash.go:28-49 | fails exactly when the root or some sub-directory fails; the root's error comes first, then that of the first failing sub-directory |
| BuildFunctions.BinaryName | internal/samurai/build-functions.go:108-118 | an annotation without arguments is the error `InvalidBinaryName` for the package file; otherwise the annotation's `name` parameter with each character lower-cased; with no annotation, the package name |
| BuildFunctions.BinaryNameFirstOnly | internal/samurai/build-functions.go:109-115 | only the first annotation counts |
| BuildFunctions.ExeName | internal/samurai/build-functions.go:120-123 | the binary name, with `.exec` appended on Windows only |
| BuildFunctions.WordRun | internal/samurai/build-functions.go:31 | the longest run of word characters starting at i |
| BuildFunctions.ClauseIndex | internal/samurai/build-functions.go:31 | the first position at or after `from` where `package ` and a word character occur, or -1 exactly when there is none |
| BuildFunctions.PackageClause | internal/samurai/build-functions.go:140 | empty exactly when no clause occurs anywhere in the source |
| BuildFunctions.ClauseMatchAt | internal/samurai/build-functions.go:31 | the match at a clause position occurs there, is `package ` followed by word characters only, and cannot be extended by another word character |
| BuildFunctions.ClauseIndexIsLeftmost | internal/samurai/build-functions.go:31 | the search finds the leftmost clause |
| BuildFunctions.PackageClauseIsLeftmost | internal/samurai/build-functions.go:140 | at the leftmost clause position, the result occurs there and is `package ` plus the maximal run of word characters that follows |
| BuildFunctions.StripSource | internal/samurai/build-functions.go:138-143 | fails with `NoPackageClause` exactly when the source without its comments lacks the keyword; otherwise trimmed text, whose content `StripSourceCutsLeftmostClause` and `StripSourceWithoutClause` state |
| BuildFunctions.StripSourceOfClauseFirst | internal/samurai/build-functions.go:138-143 | a source that starts with its package clause keeps exactly the trimmed rest |
| BuildFunctions.StripSourceCutsLeftmostClause | internal/samurai/build-functions.go:138-143 | with the comments removed, the leftmost clause cut out of the text from the `package` keyword on, and the result trimmed |
| BuildFunctions.StripSourceWithoutClause | internal/samurai/build-functions.go:138-143 | when the keyword occurs but no clause does, the text from the keyword on, trimmed |
| BuildFunctions.CutClause | internal/samurai/build-functions.go:139-143 | the keyword lies at or before the leftmost clause, and removing the first occurrence of the clause from the text after the keyword cuts out exactly that clause |
| BuildFunctions.IndexAtStart | internal/samurai/build-functions.go:139 | a source that starts with the keyword has index 0 |
| BuildFunctions.RemoveFirstAtStart | internal/samurai/build-functions.go:143 | removing a leading clause drops exactly that prefix |
| BuildFunctions.ClauseOfClauseFirst | internal/samurai/build-functions.go:140 | the clause found in `package <name><rest>` is `package <name>` |
| BuildFunctions.WordRunOver | internal/samurai/build-functions.go:140 | a maximal word run of length n is what `WordRun` finds |
| BuildFunctions.RunHook | internal/samurai/build-functions.go:185-208 | a skipped or absent hook does nothing; otherwise the compile runs first and the clean-up second, only after a successful compile; a failed compile reports `CompileFailed`, a failed clean-up `CleanupFailed`, for the binary |
| BuildFunctions.PlanDeclsFailureSticks | internal/samurai/build-functions.go:128-135 | once a declaration fails, later ones do not change the result |
| BuildFunctions.PlanPackagesFailureSticks | internal/samurai/build-functions.go:100-113 | once a package fails, later ones do not change the result |
| BuildFunctions.PlanDeclarations | internal/samurai/build-functions.go:128-158 | the declaration loop computes `PlanDecls`: functions are pulled and sources stripped in order, and the first error is returned; the stripping function is a parameter, `StripSource` in the program |
| BuildFunctions.PlanOnePackage | internal/samurai/build-functions.go:100-210 | one package's fingerprint, binary name, declarations and closing files computes `PlanPackage` |
| BuildFunctions.PlanAllPackages | internal/samurai/build-functions.go:100-210 | the package loop computes `PlanPackages`, stopping at the first failing package |
| BuildFunctions.BuildPackageForDir | internal/samurai/build-functions.go:84-213 | parses the directory and plans its packages, computing `PlanDir` |
| BuildFunctions.PlanDeclsSucceeds | internal/samurai/build-functions.go:128-143 | succeeds exactly when every declaration's functions can be pulled and its source stripped |
| BuildFunctions.PlanDeclsList | internal/samurai/build-functions.go:136-157 | one source file per declaration, in order, named by the file's base and holding the stripped source; the functions are appended |
| BuildFunctions.PlanPackageParts | internal/samurai/build-functions.go:100-126 | a planned package has a fingerprint and a binary name |
| BuildFunctions.PlanPackageExtends | internal/samurai/build-functions.go:128-209 | a package adds its declarations plus two files to the plan, and keeps what was there before |
| BuildFunctions.PlanPackageSources | internal/samurai/build-functions.go:145-157 | declaration i becomes the source file at position i of the package's part, under `cmd/<binary>/pkg` |
| BuildFunctions.PlanPackageClosing | internal/samurai/build-functions.go:160-209 | the package ends with `pkg_<binary>.go`, carrying all functions so far, then `main.go` with the build hook for the binary |
| BuildFunctions.PlanDeclsDirs | internal/samurai/build-functions.go:147 | every source file goes into the package directory given |
| BuildFunctions.PlanPackagePlaced | internal/samurai/build-functions.go:125-126 | a package's files go under the command directory, and its hook builds into the binary path from the target directory |
| BuildFunctions.PlanPackagesShape | internal/samurai/build-functions.go:100-210 | the plan has one file per declaration plus two per package, all placed under the command directory, ending with `main.go` |
| BuildFunctions.PlanDirOutcome | internal/samurai/build-functions.go:84-213 | no Go files gives an empty list; a parse error is returned; a plan records the directory, leaves hash and package paths empty, and has the counted, placed files |
| BuildFunctions.PlanSubdirectories | internal/samurai/build-functions.go:53-69 | the sub-directory loop computes the walk of the per-directory plan |
| BuildFunctions.BuildPackage | internal/samurai/build-functions.go:41-72 | the root plan, then one plan per sub-directory, stopping at the first error; it computes `BuildTree` |
| BuildFunctions.BuildTreeContents | internal/samurai/build-functions.go:41-72 | the root plan comes from the swapped call; the sub-directory keys are exactly the directory names, each holding its plan placed under `cmd` |
| BuildFunctions.BuildTreeFailure | internal/samurai/build-functions.go:47-69 | fails exactly when the root or some sub-directory fails, with the root's error first and then the first failing sub-directory's |
| Cli.BinPath | main.go:576-596 | `SHOGUNBIN` if set, else `GOBIN` if set, else `GOPATH/bin`; never empty |
| Cli.RemoveNonWord | main.go:39 | only word characters remain; a word-only name is unchanged |
| Cli.RemoveNonWordChar | main.go:39 | a single character is kept exactly when it is a word character |
| Cli.RemoveNonWordAppend | main.go:39 | removing non-word characters from a concatenation removes them from each part |
| Cli.ToPackageName | main.go:572-574 | the name with its non-word characters removed and then lower-cased: no longer than the input, and only digits, lower-case letters and `_` |
| Cli.ToPackageNameIdempotent | main.go:572-574 | sanitising twice is sanitising once |
| Cli.PackageNameFor | main.go:199-212 | `main` with the flag and no directory; the sanitised directory without the flag; the non-empty base of the working directory with neither; empty with both |
| Cli.Ext | main.go:222 | a suffix of the path that starts with `.` and contains no other dot and no slash; empty exactly when the last path element has no dot |
| Cli.AddFileName | main.go:222-223 | the result ends in `.go`; `AddFileNameReplacesExt` states that it replaces the extension |
| Cli.ExtOfGo | main.go:222-223 | a name ending in `.go` has the extension `.go` |
| Cli.AddFileNameIdempotent | main.go:222-223 | a name already ending in `.go` is kept |
| Cli.AddFileNameReplacesExt | main.go:222-223 | the result is the argument without its extension, followed by `.go` |
| Cli.AddFileNames | main.go:215-238 | at most one name per argument; its content is stated by `AddFileNamesOne`, `AddFileNamesAppend` and `AddFileNamesUniform` |
| Cli.NamesOf | main.go:215-238 | at most one name per argument |
| Cli.NamesOfAppend | main.go:215-238 | naming a concatenation of arguments names each part in turn |
| Cli.NamesOfUniform | main.go:215-238 | all-empty arguments give no names; all non-empty arguments give one name each, in order |
| Cli.AddFileNamesOne | main.go:217-224 | an empty argument gives no name; any other gives its `.go` file name |
| Cli.AddFileNamesAppend | main.go:215-238 | the names of a concatenation are the names of each part in turn |
| Cli.AddFileNamesUniform | main.go:215-238 | non-empty arguments give one `.go` name each, in order |
| Cli.AddFiles | main.go:215-238 | the loop computes `AddFileNames`: empty arguments are skipped and every other one is named by its `.go` file, in order |
| Cli.ReadFile | main.go:555-558 | nothing exactly when the file is missing; otherwise the contents with the white space at both ends trimmed |
| Cli.ReadFileOfLine | main.go:555-558 | a stored hash followed by a newline reads back as the hash |
| Cli.WithIgnore | main.go:513-545 | always contains `.shogun`; when the entry is missing, the old contents (empty if no file) followed by `.shogun` and a newline; otherwise unchanged |
| Cli.WithIgnoreIdempotent | main.go:513-533 | a second run changes nothing |
| Cli.IgnoreFile.AddToGitIgnore | main.go:535-545 | creates the file if missing and appends `.shogun` and a newline |
| Cli.IgnoreFile.CheckAndAddIgnore | main.go:513-533 | the file afterwards is `WithIgnore` of the file before |
| Cli.SubsPhaseFailureSticks | main.go:489-493 | after a failing write, later sub-directories are not attempted |
| Cli.WriteSubs | main.go:471-494 | the sub-directory loop computes `SubsPhase` |
| Cli.BuildAction | main.go:454-510 | a "skip directory" error from hashing returns quietly; other errors are returned; then the sub-directories, then the root unless it is up to date; it computes `Decide` |
| Cli.SubsPhaseWrites | main.go:471-494 | the "sub updated" latch is set exactly when something was written; no more writes than keys visited; each write is the non-empty list of a sub-directory with a package path |
| Cli.PendingKeys | main.go:473-488 | no more keys than visited, each of them planned and not skipped |
| Cli.PendingKeysMembers | main.go:473-488 | a key is pending exactly when it was visited, is planned and is not skipped |
| Cli.PendingKeysDistinct | main.go:473 | when each key is visited once, each pending key appears once |
| Cli.SubsPhaseRule | main.go:471-494 | the lists written are those of the pending keys, in order, up to and including the first failing write; the latch is set exactly when something was written; the loop ends without error exactly when every pending key was written successfully |
| Cli.SubsPhaseEachKey | main.go:471-494 | when each key of the map is visited once: a key is pending exactly when it is not skipped; the k-th write is the list of the k-th pending key; a loop without error wrote every pending key and set the latch exactly when some key was not skipped |
| Cli.SubsWithoutPackagePath | main.go:483-487 | sub-directories without a package path are never written |
| Cli.SubsAllSkipped | main.go:471-494 | when every sub-directory is skipped, nothing is written and the latch stays off |
| Cli.DecideUnchanged | main.go:471-510 | without `force`, with every sub-directory skipped and the root's hash matching, nothing is written |
| Cli.DecideRoot | main.go:496-510 | after a clean sub-directory loop, the root's list is written last exactly when `force` is on, its stored hash is unreadable or different, or some sub-directory was written |
| Cli.AsWrittenSubsNeverWritten | main.go:471-494 | for any tree `BuildPackage` plans, the sub-directory loop writes nothing, leaves the latch off and cannot fail |
| Cli.AsWrittenHashLookupMisses | main.go:473-480 | when no absolute path of the listing is also a relative name, no planned sub-directory is ever found up to date |

## Left out

- SHA-1 and file reading: a file's digest is a given function from path to an optional 40-character lower-case hex string.
- The Go parser and build-tag filtering (`FilteredPackageWithBuildCtx`): its result (no Go files, an error, or the packages) is a given function of the directory.
- `pullFunctionFromDeclr`, annotation parsing and `binHash`: these are not part of this model. Pulling functions is a given function from a package and a declaration to a list of functions or an error.
- `BuildFunctions.RunHook`: the compiler and directory-removal commands are not run. Each step's outcome is a boolean input, and the printed progress lines are left out.
- Template rendering and `ast.SimpleWriteDirectives`: a write directive records which template gets which data. Writing a list is a given function that may fail.
- The `add`, `version` and `list` commands, the katana example, kensho and the metrics and event output: only the naming helpers of `add` are modelled.
- `os.Getenv`, `os.Getwd`, `runtime.GOOS` and the `filepath.ToSlash` conversion on Windows: their values are inputs; `Cli.BinPath` does not model `ToSlash`.
- Paths are lists of segments or plain strings; `filepath.Join` and `Clean` are not modelled.
- The location of a directory's `.hashfile`, derived from the Go source path: reading a stored hash is a given function of the package path.
- A failure of the directory walk itself (`vfiles.WalkDirSurface`, list-hash.go:34-49 and build-functions.go:54-69): the listing is an input, and only the failures of the per-directory operation are modelled.
- Values returned alongside an error, such as the partly filled lists: the model returns only the error.
- `Text.ToLower`: lowers ASCII letters only, not the full Unicode case mapping.
- Go string lengths count bytes; the model counts characters, which matters only for `SpaceFor` with non-ASCII names.
- `Text.RemoveAll`: its contract states only that the length does not grow and that a string without the pattern is unchanged. The other members use it through its definition.
- The `BuildPackage` call at main.go:465 passes more arguments than the function at build-functions.go:42 accepts. The model uses the signature of build-functions.go.
- `.gitignore` read and write failures are left out; `Cli.IgnoreFile` always succeeds.
