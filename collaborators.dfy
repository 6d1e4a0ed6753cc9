/**
 * What the core receives from code outside it: the package parser's view of a
 * directory, the directory listing, the per-file digest, the declaration
 * classifier and the target operating system, plus the errors they report.
 */
module Collaborators {
  import opened Wrappers
  import Functions

  /** The failures the core reports or passes on. */
  datatype Error =
    | IOError(path: string)                 // a file could not be opened or read for hashing
    | ParseFailed(dir: string)              // the parser failed for a reason other than "no Go files"
    | InvalidBinaryName(file: string)       // `@binaryName` without arguments
    | DeclarationFailed(file: string)       // the classifier rejected a declaration
    | NoPackageClause(file: string)         // slicing at a missing `package` keyword (a Go run-time panic)
    | WriteFailed(file: string)             // writing generated files failed
    | CompileFailed(binary: string)         // `go build` failed
    | CleanupFailed(binary: string)         // removing the generated sources failed
    | SkipDir                               // the distinguished "skip this directory" error

  predicate IsLowerHex(c: char) {
    ('0' <= c <= '9') || ('a' <= c <= 'f')
  }

  /** A SHA-1 digest printed with `%x`: 40 lowercase hexadecimal characters. */
  type Hex40 = s: string | |s| == 40 && forall i | 0 <= i < |s| :: IsLowerHex(s[i])
    witness "0000000000000000000000000000000000000000"

  /** One file of a package, as the parser hands it over. */
  datatype Decl = Decl(filePath: string, source: string, comments: seq<string>)

  /**
   * One parsed package: its name, import path, the file its doc comment came
   * from, its source files in scan order, the argument maps of its
   * `@binaryName` annotations in order, and its files' declarations.
   */
  datatype Package = Package(
    name: string,
    path: string,
    filePath: string,
    files: seq<string>,
    binaryNameArgs: seq<map<string, string>>,
    decls: seq<Decl>)

  /** The parser's answer for one directory. */
  datatype ParseResult =
    | NoGoFiles                  // no build-eligible Go source: not an error
    | Failed(error: Error)
    | Parsed(pkgs: seq<Package>)

  /** One entry of a directory listing: name relative to the root, absolute path, kind. */
  datatype Entry = Entry(rel: string, abs: string, isDir: bool)

  /**
   * The collaborators, as total functions of their inputs: the parser applied
   * to a directory, the SHA-1 of a file (None when it cannot be read), the
   * classifier applied to one declaration, and the target GOOS.
   */
  datatype Tools = Tools(
    parse: string -> ParseResult,
    digest: string -> Option<Hex40>,
    pull: (Package, Decl) -> Result<seq<Functions.Function>, Error>,
    goos: string)
}
