/** The records the generator builds and consumes (its Transformer,
    FieldMetadata, ClassMetadata, FileMetadata and Import models, and the
    parser's import and function descriptors), plus the collaborators the
    core calls but does not define, given as function-valued inputs. */
module Model {

  datatype Option<T> = None | Some(value: T)

  /** The generator's fatal errors: each aborts the whole run. */
  datatype GenError =
    | TransformerFunctionNotFound(functionName: string)
    | ContextTypeConflict(existing: string, candidate: string)
    | ContextTypeImportNotFound(contextType: string)
    | MapperPathMissing(filename: string)

  const ContextConflictMessage: string := "Context for one-side mapper should be of one type or any"

  /** `!value` in the source for an optional text: no value, or the empty
      text. */
  predicate Unset(v: Option<string>) {
    v.None? || v.value == ""
  }

  datatype Result<T> = Ok(value: T) | Err(error: GenError)

  /** `f` applied to each element in order, stopping at the first error, as
      a loop that throws does. */
  function TryMap<A, B>(xs: seq<A>, f: A -> Result<B>): Result<seq<B>>
    decreases |xs|
  {
    if xs == [] then Ok([])
    else match TryMap(xs[..|xs| - 1], f)
      case Err(e) => Err(e)
      case Ok(done) =>
        match f(xs[|xs| - 1])
        case Err(e) => Err(e)
        case Ok(y) => Ok(done + [y])
  }

  lemma {:induction false} TryMapLength<A, B>(xs: seq<A>, f: A -> Result<B>)
    ensures TryMap(xs, f).Ok? ==> |TryMap(xs, f).value| == |xs|
    decreases |xs|
  {
    if xs != [] {
      TryMapLength(xs[..|xs| - 1], f);
    }
  }

  /** A mapping that succeeds holds, at each position, what `f` made of the
      element there. */
  lemma {:induction false} TryMapAt<A, B>(xs: seq<A>, f: A -> Result<B>, i: nat)
    requires i < |xs| && TryMap(xs, f).Ok?
    ensures |TryMap(xs, f).value| == |xs| && f(xs[i]) == Ok(TryMap(xs, f).value[i])
    decreases |xs|
  {
    var p := xs[..|xs| - 1];
    TryMapLength(p, f);
    if i < |p| {
      TryMapAt(p, f, i);
      assert xs[i] == p[i];
    }
  }

  /** Once a prefix fails, the whole mapping fails with the same error. */
  lemma {:induction false} TryMapPrefixFails<A, B>(xs: seq<A>, n: nat, f: A -> Result<B>)
    requires n <= |xs| && TryMap(xs[..n], f).Err?
    ensures TryMap(xs[..|xs|], f) == TryMap(xs[..n], f)
    decreases |xs| - n
  {
    if n < |xs| {
      assert xs[..n + 1][..n] == xs[..n];
      TryMapPrefixFails(xs, n + 1, f);
    }
  }

  datatype Outcome = Pass | Fail(error: GenError)

  /** `FuncDirection`: which way a converter runs. */
  datatype Direction = ToView | FromView

  function Other(d: Direction): Direction {
    if d == ToView then FromView else ToView
  }

  /** A value kept for each direction, as the source keeps
      `x[FuncDirection.toView]` and `x[FuncDirection.fromView]`. */
  datatype PerDirection<T> = PerDirection(toView: T, fromView: T) {
    function Get(d: Direction): T {
      if d == ToView then toView else fromView
    }

    function Set(d: Direction, v: T): (r: PerDirection<T>)
      ensures r.Get(d) == v && r.Get(Other(d)) == Get(Other(d))
      ensures v == Get(d) ==> r == this
    {
      if d == ToView then this.(toView := v) else this.(fromView := v)
    }
  }

  /** One direction of a field converter: the referenced function (or
      literal text) and what resolution learned about it. */
  datatype Binding = Binding(func: string, isPrimitive: bool, isPrimitiveString: bool, isAsync: bool)

  /** A field's `fieldConvertFunction`; either direction may be absent. */
  type Transformer = PerDirection<Option<Binding>>

  /** What a field meta carries for the template only: the core copies
      these along and never reads them. */
  datatype FieldDetails = FieldDetails(
    baseModelName: string,
    baseModelType: string,
    isArray: bool,
    isNullable: bool,
    isComplexType: bool,
    toStringWanted: bool)

  /** A field of a generated class: its (possibly renamed) name, its
      (possibly retyped) type, whether the view leaves it out, whether it
      needs a generated nested mapper, and its converter. */
  datatype FieldMetadata = FieldMetadata(
    name: string,
    typeName: string,
    ignoredInView: bool,
    needGeneratedMapper: bool,
    convert: Option<Transformer>,
    details: FieldDetails)

  /** `contextType[direction]`: the unified type of the second parameter
      of the class's converters in one direction. */
  datatype ContextTypeInfo = ContextTypeInfo(value: Option<string>, mandatory: bool)

  datatype ClassMetadata = ClassMetadata(
    name: string,
    baseName: string,
    baseNamePath: string,
    fields: seq<FieldMetadata>,
    generateView: bool,
    needMapper: bool,
    contextType: PerDirection<ContextTypeInfo>,
    contextTypeFields: PerDirection<seq<string>>,
    isAsync: PerDirection<bool>)

  /** The parser's `ImportNode`: the names an import statement brings in,
      the segments of its module path, and whether it names a package. */
  datatype ImportNode = ImportNode(clauses: seq<string>, absPathNode: seq<string>, isNodeModule: bool)

  /** An import line of a generated file: `import <typeText> from "<path>"`. */
  datatype Import = Import(typeText: string, path: string, forMapper: bool)

  /** A parameter as the parser reports it; `typeName == ""` when the
      parameter declares no type. */
  datatype Param = Param(typeName: string, mandatory: bool)

  datatype FunctionDecl = FunctionDecl(name: string, isAsync: bool, params: seq<Param>)

  /** What the parser returns for a converter's module. */
  datatype ParsedModule = ParsedModule(functions: seq<FunctionDecl>, imports: seq<ImportNode>)

  /** The arguments of a `@GenerateView` directive. */
  datatype GenerateViewOptions = GenerateViewOptions(model: string, filePath: string, mapperPath: Option<string>)

  /** One output file: its name, the source it came from, where its mapper
      goes, the classes it renders and the imports it needs. */
  datatype FileMetadata = FileMetadata(
    filename: string,
    basePath: string,
    mapperPath: Option<string>,
    classes: seq<ClassMetadata>,
    imports: seq<Import>)

  /** Node's `path.relative(from, to)` and `path.dirname(p)`, left
      uninterpreted. */
  datatype PathOps = PathOps(relative: (string, string) -> string, dirname: string -> string)

  /** The collaborators of the core, as inputs: `load` reads and parses the
      module an import node points at; `dependencyImports` is the
      generator's `getDependencyImportsForImports`. */
  datatype Env = Env(
    load: seq<string> -> ParsedModule,
    paths: PathOps,
    dependencyImports: (seq<Import>, FileMetadata) -> seq<Import>)

  /** `primitiveTypes`: type names that never need an import. */
  const PrimitiveTypes: seq<string> := ["string", "number", "object", "any", "null", "undefined"]

  predicate IsPrimitiveType(t: string) {
    t in PrimitiveTypes
  }

  /** A `@GenerateView` directive on a source class: its options, the class
      meta the generator's `createClassMeta` made for it, and the field
      metas `createFieldMetadata` made from the class's fields. */
  datatype ViewDirective = ViewDirective(options: GenerateViewOptions, meta: ClassMetadata, fields: seq<FieldMetadata>)

  /** A parsed source class with its `@GenerateView` directives. */
  datatype SourceClass = SourceClass(name: string, views: seq<ViewDirective>)

  /** A parsed source file: its path, its import statements, its classes. */
  datatype SourceFile = SourceFile(path: string, imports: seq<ImportNode>, classes: seq<SourceClass>)
}
