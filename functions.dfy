/**
 * The function catalog of one package: the integer codes that describe a
 * discovered function's return, export state, context convention and argument
 * shape, the table of template predicates over those codes, and the queries
 * the templates ask of a package's function list.
 */
module Functions {

  /** Padding added after the longest name in generated help columns. */
  const SpaceLen := 7

  // Return state.
  const NoReturn := 1
  const ErrorReturn := 2
  const UnknownErrorReturn := 3

  // Export state of an argument's struct type.
  const UnExportedImport := 5
  const ExportedImport := 6

  // Context convention of the first parameter.
  const NoContext := 8
  const UseGoogleContext := 9
  const UseFauxCancelContext := 10
  const UseUnknownContext := 11

  // Argument shape.
  const NoArgument := 15
  const WithContextArgument := 16
  const WithStringArgument := 17
  const WithMapArgument := 18
  const WithStructArgument := 19
  const WithImportedObjectArgument := 20
  const WithReaderArgument := 21
  const WithWriteCloserArgument := 22
  const WithStringArgumentAndWriteCloserArgument := 23
  const WithStructAndWriteCloserArgument := 24
  const WithMapAndWriteCloserArgument := 25
  const WithImportedAndWriteCloserArgument := 26
  const WithReaderAndWriteCloserArgument := 27
  const WithUnknownArgument := 28

  const ReturnCodes: seq<int> := [NoReturn, ErrorReturn, UnknownErrorReturn]
  const ExportCodes: seq<int> := [UnExportedImport, ExportedImport]
  const ContextCodes: seq<int> := [NoContext, UseGoogleContext, UseFauxCancelContext, UseUnknownContext]
  const ArgumentCodes: seq<int> := [
    NoArgument, WithContextArgument, WithStringArgument, WithMapArgument,
    WithStructArgument, WithImportedObjectArgument, WithReaderArgument,
    WithWriteCloserArgument, WithStringArgumentAndWriteCloserArgument,
    WithStructAndWriteCloserArgument, WithMapAndWriteCloserArgument,
    WithImportedAndWriteCloserArgument, WithReaderAndWriteCloserArgument,
    WithUnknownArgument]

  /** The codes of one group are consecutive, starting at `first`. */
  predicate Consecutive(codes: seq<int>, first: int) {
    forall i | 0 <= i < |codes| :: codes[i] == first + i
  }

  /**
   * Each group is a run of consecutive codes (so its codes are distinct), and
   * the runs 1-3, 5-6, 8-11 and 15-28 do not overlap.
   */
  lemma CodeGroupsDisjoint()
    ensures Consecutive(ReturnCodes, 1) && Consecutive(ExportCodes, 5)
    ensures Consecutive(ContextCodes, 8) && Consecutive(ArgumentCodes, 15)
    ensures |ReturnCodes| == 3 && |ExportCodes| == 2 && |ContextCodes| == 4 && |ArgumentCodes| == 14
    ensures forall a, b | a in ReturnCodes && b in ExportCodes + ContextCodes + ArgumentCodes :: a < b
    ensures forall a, b | a in ExportCodes && b in ContextCodes + ArgumentCodes :: a < b
    ensures forall a, b | a in ContextCodes && b in ArgumentCodes :: a < b
  {
  }

  /** The entries of the template function map, named as the templates call them. */
  datatype TemplateFunc =
    | ReturnsError | UsesNoContext | UsesGoogleContext | UsesFauxContext
    | HasNoArgument | HasContextArgument | HasStringArgument | HasMapArgument
    | HasStructArgument | HasReadArgument | HasWriteArgument | HasImportedArgument
    | HasArgumentStructExported | HasArgumentStructUnexported
    | HasStringArgumentWithWriter | HasReadArgumentWithWriter
    | HasStructArgumentWithWriter | HasMapArgumentWithWriter
    | HasImportedArgumentWithWriter

  /** Applies a template predicate to a code. */
  predicate Test(f: TemplateFunc, d: int) {
    match f
    case ReturnsError => d == ErrorReturn
    case UsesNoContext => d == NoContext
    case UsesGoogleContext => d == UseGoogleContext
    case UsesFauxContext => d == UseFauxCancelContext
    case HasNoArgument => d == NoArgument
    case HasContextArgument => d == WithContextArgument
    case HasStringArgument => d == WithStringArgument
    case HasMapArgument => d == WithMapArgument
    case HasStructArgument => d == WithStructArgument
    case HasReadArgument => d == WithReaderArgument
    case HasWriteArgument => d == WithWriteCloserArgument
    case HasImportedArgument => d == WithImportedObjectArgument
    case HasArgumentStructExported => d == ExportedImport
    case HasArgumentStructUnexported => d == UnExportedImport
    case HasStringArgumentWithWriter => d == WithStringArgumentAndWriteCloserArgument
    case HasReadArgumentWithWriter => d == WithReaderAndWriteCloserArgument
    case HasStructArgumentWithWriter => d == WithStructAndWriteCloserArgument
    case HasMapArgumentWithWriter => d == WithMapAndWriteCloserArgument
    case HasImportedArgumentWithWriter => d == WithImportedAndWriteCloserArgument
  }

  /**
   * Every predicate accepts exactly one code, and no two predicates accept the
   * same code: for any code at most one entry of the table holds.
   */
  lemma AtMostOneTestHolds(f: TemplateFunc, g: TemplateFunc, d: int, e: int)
    ensures Test(f, d) && Test(f, e) ==> d == e
    ensures Test(f, d) && Test(g, d) ==> f == g
  {
  }

  /** Details of a type a function argument refers to. */
  datatype VarMeta = VarMeta(
    importPath: string,
    importNick: string,
    typeName: string,
    typeAddr: string,
    exported: int)

  /** One discovered function, as the classifier (not part of this model) records it. */
  datatype Function = Function(
    context: int,
    argType: int,
    ret: int,
    structExported: int,
    exported: bool,
    isDefault: bool,
    realName: string,
    name: string,
    source: string,
    packagePath: string,
    imports: VarMeta,
    contextImport: VarMeta)

  /** The catalog of one package. */
  datatype PackageFunctions = PackageFunctions(
    name: string,
    hash: string,
    path: string,
    desc: string,
    filePath: string,
    binaryName: string,
    maxNameLen: int,
    list: seq<Function>)

  /** `i` is the first entry of `list` marked default. */
  predicate IsFirstDefault(list: seq<Function>, i: int) {
    0 <= i < |list| && list[i].isDefault && forall j | 0 <= j < i :: !list[j].isDefault
  }

  /**
   * `PackageFunctions.Default` over the package's list: the first entry marked
   * default as a one-element list, or the empty list when none is.
   */
  function Default(list: seq<Function>): (r: seq<Function>)
    ensures r == [] <==> forall i | 0 <= i < |list| :: !list[i].isDefault
    ensures forall i | IsFirstDefault(list, i) :: r == [list[i]]
  {
    if list == [] then []
    else if list[0].isDefault then [list[0]]
    else
      var r := Default(list[1..]);
      assert forall i | IsFirstDefault(list, i) :: IsFirstDefault(list[1..], i - 1);
      r
  }

  /** With several defaults, the earliest one is the package's default. */
  lemma {:induction false} EarliestDefaultWins(list: seq<Function>, i: nat)
    requires i < |list| && list[i].isDefault
    ensures exists k | 0 <= k <= i :: list[k].isDefault && Default(list) == [list[k]]
  {
    FirstDefaultExists(list, i);
    var k :| IsFirstDefault(list, k);
    assert Default(list) == [list[k]];
  }

  /** When some entry is default there is a first one. */
  lemma {:induction false} FirstDefaultExists(list: seq<Function>, i: nat)
    requires i < |list| && list[i].isDefault
    ensures exists k :: IsFirstDefault(list, k)
  {
    if exists j | 0 <= j < i :: list[j].isDefault {
      var j :| 0 <= j < i && list[j].isDefault;
      FirstDefaultExists(list, j);
    } else {
      assert IsFirstDefault(list, i);
    }
  }

  /** Whether some entry of `list` uses context convention `context`. */
  function UsesContext(list: seq<Function>, context: int): (r: bool)
    ensures r <==> exists i | 0 <= i < |list| :: list[i].context == context
  {
    if list == [] then false
    else if list[0].context == context then
      assert list[0].context == context;
      true
    else
      var r := UsesContext(list[1..], context);
      assert forall i | 1 <= i < |list| :: list[i] == list[1..][i - 1];
      r
  }

  /** `PackageFunctions.HasFauxImports`: some entry uses the custom cancel context. */
  function HasFauxImports(list: seq<Function>): (r: bool)
    ensures r <==> exists i | 0 <= i < |list| :: list[i].context == UseFauxCancelContext
  {
    UsesContext(list, UseFauxCancelContext)
  }

  /** `PackageFunctions.HasGoogleImports`: some entry uses the standard context. */
  function HasGoogleImports(list: seq<Function>): (r: bool)
    ensures r <==> exists i | 0 <= i < |list| :: list[i].context == UseGoogleContext
  {
    UsesContext(list, UseGoogleContext)
  }

  /** `i` is the first entry of `list` whose argument type comes from import `path`. */
  predicate FirstCarrying(list: seq<Function>, path: string, i: int) {
    0 <= i < |list| && list[i].imports.importPath == path
    && forall j | 0 <= j < i :: list[j].imports.importPath != path
  }

  /**
   * `PackageFunctions.Imports`: maps every non-empty import path used by an
   * entry to the alias of the first entry that uses it; later entries never
   * overwrite an alias already recorded.
   */
  method Imports(list: seq<Function>) returns (mo: map<string, string>)
    ensures forall p :: p in mo <==> p != "" && exists i | 0 <= i < |list| :: list[i].imports.importPath == p
    ensures forall p, i | p in mo && FirstCarrying(list, p, i) :: mo[p] == list[i].imports.importNick
  {
    mo := map[];
    for n := 0 to |list|
      invariant forall p :: p in mo <==> p != "" && exists i | 0 <= i < n :: list[i].imports.importPath == p
      invariant forall p, i | p in mo && FirstCarrying(list, p, i) :: i < n && mo[p] == list[i].imports.importNick
    {
      var item := list[n];
      if item.imports.importPath == "" {
        continue;
      }
      if item.imports.importPath !in mo {
        mo := mo[item.imports.importPath := item.imports.importNick];
      }
    }
  }

  /** `printSpaceLine`: a line of `length` spaces, empty when `length` is not positive. */
  method PrintSpaceLine(length: int) returns (line: string)
    ensures |line| == if length > 0 then length else 0
    ensures forall i | 0 <= i < |line| :: line[i] == ' '
  {
    line := "";
    var i := 0;
    while i < length
      invariant |line| == if i > 0 then i else 0
      invariant i <= length || i == 0
      invariant forall k | 0 <= k < |line| :: line[k] == ' '
    {
      line := line + " ";
      i := i + 1;
    }
  }

  /**
   * `PackageFunctions.SpaceFor`: the padding printed after `name` in a help
   * column, `SpaceLen` spaces plus the distance between the name's length and
   * the package's longest name, in either direction.
   */
  method SpaceFor(pn: PackageFunctions, name: string) returns (space: string)
    ensures |space| == SpaceLen + (if pn.maxNameLen >= |name| then pn.maxNameLen - |name| else |name| - pn.maxNameLen)
    ensures forall i | 0 <= i < |space| :: space[i] == ' '
  {
    var nmLength := |name|;
    if nmLength == pn.maxNameLen {
      space := PrintSpaceLine(SpaceLen);
      return;
    }
    if nmLength < pn.maxNameLen {
      var diff := pn.maxNameLen - nmLength;
      space := PrintSpaceLine(SpaceLen + diff);
      return;
    }
    var newLen := SpaceLen - (pn.maxNameLen - nmLength);
    // The name is longer than the longest name, so newLen exceeds SpaceLen and
    // the sign flip below never applies.
    assert newLen > SpaceLen;
    if newLen < -1 {
      newLen := newLen * -1;
    }
    space := PrintSpaceLine(newLen);
  }
}
