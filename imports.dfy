/** Import resolution for one output file (`getInfoFromClassField`,
    `makeCorrectImports` and `filterTransformerWhichAlreadyExistInMapper`
    in src/tasks/createViewModels.ts): the type names a class uses are
    matched, by index, against the clauses of the source file's possible
    imports, each matched import becomes an `Import` line with a path
    relative to the view file (or to the mapper directory), and the lines
    are then de-duplicated by their text and merged by their path. */
module Imports {
  import opened Text
  import opened Sequences
  import opened Model

  // ---------------------------------------------------------------------
  // Names a class uses (lines 213-251)

  /** The root identifier of a direction's binding when it is primitive. */
  function PrimitiveRoot(t: Transformer, d: Direction): seq<string> {
    if t.Get(d).Some? && t.Get(d).value.isPrimitive then [RootIdentifier(t.Get(d).value.func)] else []
  }

  /** `getInfoFromClassField`: the names one field adds; its two lists
      (`usingTypesInClass` and `importsForMapper`) are always equal, so
      one is returned. */
  function FieldInfo(f: FieldMetadata): seq<string> {
    (if f.convert.Some? && !f.ignoredInView then PrimitiveRoot(f.convert.value, ToView) + PrimitiveRoot(f.convert.value, FromView) else [])
    + (if f.needGeneratedMapper then [f.typeName + "Mapper"] else [])
  }

  /** The names a field adds: the root identifier of each primitive
      converter direction of a visible field, and `<type>Mapper` when the
      field needs a generated mapper, visible or not. */
  lemma FieldInfoMembers(f: FieldMetadata, x: string)
    ensures x in FieldInfo(f) <==>
      (f.convert.Some? && !f.ignoredInView &&
         exists d: Direction :: f.convert.value.Get(d).Some? && f.convert.value.Get(d).value.isPrimitive
                                && x == RootIdentifier(f.convert.value.Get(d).value.func))
      || (f.needGeneratedMapper && x == f.typeName + "Mapper")
  {
    if f.convert.Some? && !f.ignoredInView {
      var t := f.convert.value;
      if x in PrimitiveRoot(t, ToView) {
        assert t.Get(ToView).Some? && t.Get(ToView).value.isPrimitive;
      }
      if x in PrimitiveRoot(t, FromView) {
        assert t.Get(FromView).Some? && t.Get(FromView).value.isPrimitive;
      }
    }
  }

  /** The types of the fields the view keeps, in field order. */
  function VisibleTypes(fields: seq<FieldMetadata>): (r: seq<string>)
    ensures forall x :: x in r <==> exists i :: 0 <= i < |fields| && !fields[i].ignoredInView && fields[i].typeName == x
    decreases |fields|
  {
    if fields == [] then []
    else
      var p := fields[..|fields| - 1];
      var l := fields[|fields| - 1];
      assert forall i :: 0 <= i < |p| ==> p[i] == fields[i];
      VisibleTypes(p) + (if l.ignoredInView then [] else [l.typeName])
  }

  /** The field infos of `fields`, in field order. */
  function Infos(fields: seq<FieldMetadata>): (r: seq<seq<string>>)
    ensures |r| == |fields| && forall i :: 0 <= i < |fields| ==> r[i] == FieldInfo(fields[i])
  {
    seq(|fields|, i requires 0 <= i < |fields| => FieldInfo(fields[i]))
  }

  /** `usingTypesInClass` after line 251. */
  function UsingTypes(cls: ClassMetadata): seq<string> {
    Unique(VisibleTypes(cls.fields)) + Flatten(Infos(cls.fields))
  }

  /** A direction's context type when it is set and not primitive: the name
      the source pushes onto `importsForMapper` at lines 253 and 260. An
      unset value would push `null`/`undefined`, which matches no clause,
      so nothing is pushed for it here. */
  function MapperContext(cls: ClassMetadata, d: Direction): seq<string> {
    var v := cls.contextType.Get(d).value;
    if v.Some? && !IsPrimitiveType(v.value) then [v.value] else []
  }

  /** `importsForMapper` after line 268. */
  function MapperNames(cls: ClassMetadata): seq<string> {
    Flatten(Infos(cls.fields)) + MapperContext(cls, FromView) + MapperContext(cls, ToView)
  }

  /** The names the field infos add, over all fields. */
  lemma InfoNames(fields: seq<FieldMetadata>, x: string)
    ensures x in Flatten(Infos(fields)) <==> exists i :: 0 <= i < |fields| && x in FieldInfo(fields[i])
  {
    FlattenMembers(Infos(fields), x);
    if exists i :: 0 <= i < |fields| && x in FieldInfo(fields[i]) {
      var i :| 0 <= i < |fields| && x in FieldInfo(fields[i]);
      assert x in Infos(fields)[i];
    }
  }

  /** The names in use are the visible field types, each once and in
      field order, followed by every name a field info adds. */
  lemma UsingTypesMembers(cls: ClassMetadata, x: string)
    ensures x in UsingTypes(cls) <==>
      (exists i :: 0 <= i < |cls.fields| && !cls.fields[i].ignoredInView && cls.fields[i].typeName == x)
      || (exists i :: 0 <= i < |cls.fields| && x in FieldInfo(cls.fields[i]))
    ensures forall i, j :: 0 <= i < j < |Unique(VisibleTypes(cls.fields))| ==>
      UsingTypes(cls)[i] != UsingTypes(cls)[j]
  {
    var u := Unique(VisibleTypes(cls.fields));
    UniqueProperties(VisibleTypes(cls.fields));
    InfoNames(cls.fields, x);
    assert x in UsingTypes(cls) <==> x in u || x in Flatten(Infos(cls.fields));
    assert forall i :: 0 <= i < |u| ==> UsingTypes(cls)[i] == u[i];
  }

  /** Every name a field info adds is also a mapper-only name, and so is
      each non-primitive context type. */
  lemma MapperNamesMembers(cls: ClassMetadata, x: string)
    ensures x in MapperNames(cls) <==>
      (exists i :: 0 <= i < |cls.fields| && x in FieldInfo(cls.fields[i]))
      || x in MapperContext(cls, FromView) || x in MapperContext(cls, ToView)
  {
    InfoNames(cls.fields, x);
  }

  // ---------------------------------------------------------------------
  // Indices of the matching imports (lines 252-278)

  /** The indices, in ascending order, of the imports whose clauses hold
      `name`: one `imports.forEach((imp, j) => ... push(j))` pass. */
  function IndicesWith(imports: seq<ImportNode>, name: string): (r: seq<nat>)
    ensures forall j: nat :: j in r <==> j < |imports| && name in imports[j].clauses
    ensures forall a, b :: 0 <= a < b < |r| ==> r[a] < r[b]
    decreases |imports|
  {
    if imports == [] then []
    else
      var p := imports[..|imports| - 1];
      assert forall j :: 0 <= j < |p| ==> p[j] == imports[j];
      var r0 := IndicesWith(p, name);
      assert forall a :: 0 <= a < |r0| ==> r0[a] < |p| by {
        forall a | 0 <= a < |r0| ensures r0[a] < |p| {
          assert r0[a] in r0;
        }
      }
      r0 + (if name in imports[|imports| - 1].clauses then [|imports| - 1] else [])
  }

  /** `.filter(i => !!i)`: index 0 is falsy and is dropped. */
  function DropZero(s: seq<nat>): (r: seq<nat>)
    ensures forall j :: j in r <==> j in s && j != 0
    decreases |s|
  {
    if s == [] then []
    else DropZero(s[..|s| - 1]) + (if s[|s| - 1] == 0 then [] else [s[|s| - 1]])
  }

  lemma DropZeroSnoc(s: seq<nat>, x: nat)
    ensures DropZero(s + [x]) == DropZero(s) + (if x == 0 then [] else [x])
  {
    assert (s + [x])[..|s|] == s;
  }

  lemma IndicesWithSnoc(imports: seq<ImportNode>, j: nat, name: string)
    requires j < |imports|
    ensures IndicesWith(imports[..j + 1], name)
      == IndicesWith(imports[..j], name) + (if name in imports[j].clauses then [j] else [])
  {
    assert imports[..j + 1][..j] == imports[..j];
  }

  /** The context value of direction `d` when the source looks it up in
      the clauses: set and not primitive. A clause equal to the empty text
      is falsy, so the empty value finds nothing either. */
  function ContextLookup(cls: ClassMetadata, d: Direction): Option<string> {
    var v := cls.contextType.Get(d).value;
    if v.Some? && v.value != "" && !IsPrimitiveType(v.value) then v else None
  }

  /** The indices the `fromView` context type selects (lines 252-258). */
  function FromViewIndices(cls: ClassMetadata, imports: seq<ImportNode>): seq<nat> {
    match ContextLookup(cls, FromView)
    case None => []
    case Some(v) => DropZero(IndicesWith(imports, v))
  }

  /** The indices the `toView` context type selects (lines 259-268). */
  function ToViewIndices(cls: ClassMetadata, imports: seq<ImportNode>): seq<nat> {
    match ContextLookup(cls, ToView)
    case None => []
    case Some(v) => IndicesWith(imports, v)
  }

  /** The indices the names in use select, name by name (lines 269-277). */
  function TypeIndices(types: seq<string>, imports: seq<ImportNode>): seq<nat>
    decreases |types|
  {
    if types == [] then []
    else TypeIndices(types[..|types| - 1], imports) + IndicesWith(imports, types[|types| - 1])
  }

  /** `indexesOfCorrectImports` after line 277. */
  function CandidateIndices(cls: ClassMetadata, imports: seq<ImportNode>): seq<nat> {
    FromViewIndices(cls, imports) + ToViewIndices(cls, imports) + TypeIndices(UsingTypes(cls), imports)
  }

  /** The imports a class selects, each index once, in the order it was
      first collected (`new Set(indexesOfCorrectImports)`). */
  function SelectedIndices(cls: ClassMetadata, imports: seq<ImportNode>): seq<nat> {
    Unique(CandidateIndices(cls, imports))
  }

  lemma {:induction false} TypeIndicesMembers(types: seq<string>, imports: seq<ImportNode>, j: nat)
    ensures j in TypeIndices(types, imports) <==>
      j < |imports| && exists t :: t in types && t in imports[j].clauses
    decreases |types|
  {
    if types != [] {
      var p := types[..|types| - 1];
      var last := types[|types| - 1];
      TypeIndicesMembers(p, imports, j);
      assert j in TypeIndices(types, imports) <==> j in TypeIndices(p, imports) || j in IndicesWith(imports, last);
      if j < |imports| {
        var cs := imports[j].clauses;
        if exists t :: t in types && t in cs {
          var t :| t in types && t in cs;
          if t != last {
            assert t in p;
          }
        }
        if exists t :: t in p && t in cs {
          var t :| t in p && t in cs;
          assert t in types;
        }
      }
    }
  }

  /** An import is selected iff it holds the `toView` context type, or holds
      the `fromView` context type and is not the first import, or holds a
      name in use; each selected index appears once. */
  lemma SelectedIndicesMembers(cls: ClassMetadata, imports: seq<ImportNode>, j: nat)
    ensures j in SelectedIndices(cls, imports) <==>
      j < |imports| &&
      ((ContextLookup(cls, FromView).Some? && j != 0 && ContextLookup(cls, FromView).value in imports[j].clauses)
       || (ContextLookup(cls, ToView).Some? && ContextLookup(cls, ToView).value in imports[j].clauses)
       || exists t :: t in UsingTypes(cls) && t in imports[j].clauses)
    ensures forall a, b :: 0 <= a < b < |SelectedIndices(cls, imports)| ==>
      SelectedIndices(cls, imports)[a] != SelectedIndices(cls, imports)[b]
  {
    UniqueProperties(CandidateIndices(cls, imports));
    TypeIndicesMembers(UsingTypes(cls), imports, j);
  }

  /** The first import is never selected through the `fromView` context
      type alone: an import at index 0 that holds only that type is left
      out, where the same import at any later index is kept. */
  lemma FirstImportLostForFromViewContext(cls: ClassMetadata, imports: seq<ImportNode>)
    requires |imports| > 0 && ContextLookup(cls, FromView).Some?
    requires ContextLookup(cls, ToView).None?
    requires imports[0].clauses == [ContextLookup(cls, FromView).value]
    requires ContextLookup(cls, FromView).value !in UsingTypes(cls)
    ensures 0 !in SelectedIndices(cls, imports)
    ensures forall j :: 0 < j < |imports| && imports[j] == imports[0] ==> j in SelectedIndices(cls, imports)
  {
    SelectedIndicesMembers(cls, imports, 0);
    forall j | 0 < j < |imports| && imports[j] == imports[0]
      ensures j in SelectedIndices(cls, imports)
    {
      SelectedIndicesMembers(cls, imports, j);
    }
  }

  /** Lines 252-278: the candidate indices of `cls`, each kept once. */
  method CollectIndices(cls: ClassMetadata, imports: seq<ImportNode>) returns (r: seq<nat>)
    ensures r == SelectedIndices(cls, imports)
  {
    var acc: seq<nat> := [];
    var v := ContextLookup(cls, FromView);
    if v.Some? {
      acc := NonzeroIndices(imports, v.value);
    }
    assert acc == FromViewIndices(cls, imports);
    v := ContextLookup(cls, ToView);
    if v.Some? {
      acc := Push(acc, imports, v.value);
    } else {
      assert acc == acc + [];
    }
    assert acc == FromViewIndices(cls, imports) + ToViewIndices(cls, imports);
    acc := PushAll(acc, imports, UsingTypes(cls));
    assert acc == CandidateIndices(cls, imports);
    r := Unique(acc);
  }

  /** Lines 254-257: the indices of the imports holding `name`, index 0
      dropped. */
  method NonzeroIndices(imports: seq<ImportNode>, name: string) returns (r: seq<nat>)
    ensures r == DropZero(IndicesWith(imports, name))
  {
    r := [];
    var j := 0;
    while j < |imports|
      invariant 0 <= j <= |imports|
      invariant r == DropZero(IndicesWith(imports[..j], name))
    {
      NonzeroSnoc(imports, j, name);
      if name in imports[j].clauses && j != 0 {
        r := r + [j];
      }
      j := j + 1;
    }
    assert imports[..j] == imports;
  }

  lemma NonzeroSnoc(imports: seq<ImportNode>, j: nat, name: string)
    requires j < |imports|
    ensures DropZero(IndicesWith(imports[..j + 1], name))
      == DropZero(IndicesWith(imports[..j], name)) + (if name in imports[j].clauses && j != 0 then [j] else [])
  {
    IndicesWithSnoc(imports, j, name);
    if name in imports[j].clauses {
      DropZeroSnoc(IndicesWith(imports[..j], name), j);
    } else {
      assert IndicesWith(imports[..j], name) + [] == IndicesWith(imports[..j], name);
    }
  }

  /** One `imports.forEach` pass pushing the index of every import whose
      clauses hold `name`. */
  method Push(acc: seq<nat>, imports: seq<ImportNode>, name: string) returns (r: seq<nat>)
    ensures r == acc + IndicesWith(imports, name)
  {
    r := acc;
    var j := 0;
    while j < |imports|
      invariant 0 <= j <= |imports|
      invariant r == acc + IndicesWith(imports[..j], name)
    {
      IndicesWithSnoc(imports, j, name);
      ghost var before := IndicesWith(imports[..j], name);
      if name in imports[j].clauses {
        r := r + [j];
        assert r == acc + (before + [j]);
      }
      j := j + 1;
    }
    assert imports[..j] == imports;
  }

  /** Lines 269-277: one pass per name in use. */
  method PushAll(acc: seq<nat>, imports: seq<ImportNode>, types: seq<string>) returns (r: seq<nat>)
    ensures r == acc + TypeIndices(types, imports)
  {
    r := acc;
    var t := 0;
    while t < |types|
      invariant 0 <= t <= |types|
      invariant r == acc + TypeIndices(types[..t], imports)
    {
      assert types[..t + 1][..t] == types[..t];
      r := Push(r, imports, types[t]);
      t := t + 1;
    }
    assert types[..t] == types;
  }

  // ---------------------------------------------------------------------
  // One import line (lines 279-309)

  /** `{ a,b,c }`: the type text of an import with these clauses. */
  function TypeText(clauses: seq<string>): string {
    "{ " + Join(clauses, ",") + " }"
  }

  /** Some mapper-only name is one of the clauses. */
  predicate NeedsMapperPath(clauses: seq<string>, mapperNames: seq<string>) {
    exists i :: 0 <= i < |mapperNames| && mapperNames[i] in clauses
  }

  /** The directory of the view file, taken from its name with every `.ts`
      removed (line 283, then `path.dirname`). */
  function ViewDir(fm: FileMetadata, paths: PathOps): string {
    paths.dirname(StripAll(fm.filename, ".ts"))
  }

  /** The path of a view import: the package path for a package, else the
      path from the view file's directory with `\` turned into `/` and a
      leading `./` when it holds none yet. */
  function ViewPath(fm: FileMetadata, node: ImportNode, paths: PathOps): (r: string)
    ensures !node.isNodeModule ==> Contains(r, "./") && '\\' !in r
    ensures node.isNodeModule ==> r == Join(node.absPathNode, "/")
  {
    var toPath := Join(node.absPathNode, "/");
    if node.isNodeModule then toPath
    else
      var rel := ReplaceAll(paths.relative(ViewDir(fm, paths), toPath), '\\', "/");
      ReplaceAllRemoves(paths.relative(ViewDir(fm, paths), toPath), '\\', "/");
      EnsureDotSlash(rel)
  }

  /** On `/`-separated paths, a view import's path is the path from the
      view file's directory, with `./` put in front when it holds none. */
  lemma ViewPathPosix(fm: FileMetadata, node: ImportNode, paths: PathOps)
    requires !node.isNodeModule
    requires '\\' !in paths.relative(ViewDir(fm, paths), Join(node.absPathNode, "/"))
    ensures var rel := paths.relative(ViewDir(fm, paths), Join(node.absPathNode, "/"));
      ViewPath(fm, node, paths) == if Contains(rel, "./") then rel else "./" + rel
  {
    ReplaceAllAbsent(paths.relative(ViewDir(fm, paths), Join(node.absPathNode, "/")), '\\', "/");
  }

  /** The path of a mapper import: relative to `mapperDir` even for a
      package, the last `\`-separated segment's first letter lowered, `\`
      turned into `/`, and a leading `./` when it holds none yet and is not
      a package. */
  function MapperImportPath(mapperDir: string, node: ImportNode, paths: PathOps): (r: string)
    ensures !node.isNodeModule ==> Contains(r, "./")
    ensures '\\' !in r
  {
    var segments := Split(paths.relative(mapperDir, Join(node.absPathNode, "/")), '\\');
    var last := |segments| - 1;
    var lowered := segments[last := DownFirstLetter(segments[last])];
    assert forall k :: 0 <= k < |lowered| ==> '\\' !in lowered[k] by {
      DownFirstLetterKeepsOut(segments[last], '\\');
    }
    var p := Join(lowered, "/");
    assert '\\' !in p by {
      if '\\' in p { JoinChars(lowered, "/", '\\'); }
    }
    if !Contains(p, "./") && !node.isNodeModule then
      assert StartsWith("./" + p, "./");
      "./" + p
    else p
  }

  /** On `/`-separated paths the whole relative path is one segment, so
      only its first character is lowered, whether or not the import is a
      package; `./` is put in front of a path that is not a package and
      holds none. */
  lemma MapperImportPathPosix(mapperDir: string, node: ImportNode, paths: PathOps)
    requires '\\' !in paths.relative(mapperDir, Join(node.absPathNode, "/"))
    ensures var p := DownFirstLetter(paths.relative(mapperDir, Join(node.absPathNode, "/")));
      MapperImportPath(mapperDir, node, paths) == if !Contains(p, "./") && !node.isNodeModule then "./" + p else p
  {
    SplitNoSeparator(paths.relative(mapperDir, Join(node.absPathNode, "/")), '\\');
  }

  /** So a `/`-separated relative path that leaves the mapper directory
      (`../...`) is used as it is: the file name's first letter is not
      lowered. */
  lemma MapperImportPathParent(mapperDir: string, node: ImportNode, paths: PathOps)
    requires '\\' !in paths.relative(mapperDir, Join(node.absPathNode, "/"))
    requires StartsWith(paths.relative(mapperDir, Join(node.absPathNode, "/")), "../")
    ensures MapperImportPath(mapperDir, node, paths) == paths.relative(mapperDir, Join(node.absPathNode, "/"))
  {
    var rel := paths.relative(mapperDir, Join(node.absPathNode, "/"));
    MapperImportPathPosix(mapperDir, node, paths);
    assert DownFirstLetter(rel) == rel by {
      assert [LowerChar(rel[0])] + rel[1..] == rel;
    }
    assert rel[1..][..2] == "./";
  }

  /** The `Import` made for one selected import node. A clause that is a
      mapper-only name makes it a mapper import, located from
      `fm.mapperPath`; without a mapper path `path.relative` throws. */
  function BuildImport(fm: FileMetadata, node: ImportNode, mapperNames: seq<string>, paths: PathOps): (r: Result<Import>)
    ensures r.Err? <==> NeedsMapperPath(node.clauses, mapperNames) && fm.mapperPath.None?
    ensures r.Err? ==> r.error == MapperPathMissing(fm.filename)
    ensures r.Ok? ==> r.value.typeText == TypeText(node.clauses)
    ensures r.Ok? ==> (r.value.forMapper <==> NeedsMapperPath(node.clauses, mapperNames))
    ensures r.Ok? && !r.value.forMapper ==> r.value.path == ViewPath(fm, node, paths)
    ensures r.Ok? && r.value.forMapper ==> r.value.path == MapperImportPath(fm.mapperPath.value, node, paths)
    ensures r.Ok? && !node.isNodeModule ==> Contains(r.value.path, "./")
  {
    if !NeedsMapperPath(node.clauses, mapperNames) then Ok(Import(TypeText(node.clauses), ViewPath(fm, node, paths), false))
    else if fm.mapperPath.None? then Err(MapperPathMissing(fm.filename))
    else Ok(Import(TypeText(node.clauses), MapperImportPath(fm.mapperPath.value, node, paths), true))
  }

  /** The import lines for the selected indices `idx`, in order, stopping
      at the first throw. */
  function BuildAll(fm: FileMetadata, imports: seq<ImportNode>, idx: seq<nat>, mapperNames: seq<string>,
                    paths: PathOps): (r: Result<seq<Import>>)
    requires forall a :: 0 <= a < |idx| ==> idx[a] < |imports|
    ensures r.Ok? ==> |r.value| == |idx|
    ensures r.Ok? ==> forall a :: 0 <= a < |idx| ==> BuildImport(fm, imports[idx[a]], mapperNames, paths) == Ok(r.value[a])
    decreases |idx|
  {
    if idx == [] then Ok([])
    else match BuildAll(fm, imports, idx[..|idx| - 1], mapperNames, paths)
      case Err(e) => Err(e)
      case Ok(l) =>
        match BuildImport(fm, imports[idx[|idx| - 1]], mapperNames, paths)
        case Err(e) => Err(e)
        case Ok(imp) => Ok(l + [imp])
  }

  /** Some selected import holds a mapper-only name. */
  predicate SomeMapperLine(imports: seq<ImportNode>, idx: seq<nat>, mapperNames: seq<string>) {
    exists a :: 0 <= a < |idx| && idx[a] < |imports| && NeedsMapperPath(imports[idx[a]].clauses, mapperNames)
  }

  /** Building the lines throws exactly when some selected import is a
      mapper line and the file has no mapper path, and then with that
      error. */
  lemma {:induction false} BuildAllFails(fm: FileMetadata, imports: seq<ImportNode>, idx: seq<nat>,
                                         mapperNames: seq<string>, paths: PathOps)
    requires forall a :: 0 <= a < |idx| ==> idx[a] < |imports|
    ensures BuildAll(fm, imports, idx, mapperNames, paths).Err? <==>
      fm.mapperPath.None? && SomeMapperLine(imports, idx, mapperNames)
    ensures BuildAll(fm, imports, idx, mapperNames, paths).Err? ==>
      BuildAll(fm, imports, idx, mapperNames, paths).error == MapperPathMissing(fm.filename)
    decreases |idx|
  {
    if idx != [] {
      var p := idx[..|idx| - 1];
      BuildAllFails(fm, imports, p, mapperNames, paths);
      SomeMapperLineSnoc(imports, idx, p, mapperNames);
    }
  }

  lemma SomeMapperLineSnoc(imports: seq<ImportNode>, idx: seq<nat>, p: seq<nat>, mapperNames: seq<string>)
    requires idx != [] && p == idx[..|idx| - 1] && idx[|idx| - 1] < |imports|
    ensures SomeMapperLine(imports, idx, mapperNames) <==>
      SomeMapperLine(imports, p, mapperNames) || NeedsMapperPath(imports[idx[|idx| - 1]].clauses, mapperNames)
  {
    var n := |idx| - 1;
    if SomeMapperLine(imports, idx, mapperNames) {
      var a :| 0 <= a < |idx| && idx[a] < |imports| && NeedsMapperPath(imports[idx[a]].clauses, mapperNames);
      if a < n { assert p[a] == idx[a]; }
    }
    if SomeMapperLine(imports, p, mapperNames) {
      var a :| 0 <= a < |p| && p[a] < |imports| && NeedsMapperPath(imports[p[a]].clauses, mapperNames);
      assert idx[a] == p[a];
    }
  }

  /** The lines one class contributes (lines 242-310). */
  function ClassImports(fm: FileMetadata, cls: ClassMetadata, imports: seq<ImportNode>, paths: PathOps): Result<seq<Import>> {
    var idx := SelectedIndices(cls, imports);
    SelectedInRange(cls, imports);
    BuildAll(fm, imports, idx, MapperNames(cls), paths)
  }

  lemma SelectedInRange(cls: ClassMetadata, imports: seq<ImportNode>)
    ensures forall a :: 0 <= a < |SelectedIndices(cls, imports)| ==> SelectedIndices(cls, imports)[a] < |imports|
  {
    forall a | 0 <= a < |SelectedIndices(cls, imports)|
      ensures SelectedIndices(cls, imports)[a] < |imports|
    {
      SelectedIndicesMembers(cls, imports, SelectedIndices(cls, imports)[a]);
    }
  }

  /** `fileMetadata.imports` after the class loop: the lines it already
      held, then each class's lines in class order. */
  function PushedImports(fm: FileMetadata, classes: seq<ClassMetadata>, imports: seq<ImportNode>,
                         paths: PathOps): (r: Result<seq<Import>>)
    ensures r.Ok? ==> fm.imports <= r.value
    decreases |classes|
  {
    if classes == [] then Ok(fm.imports)
    else match PushedImports(fm, classes[..|classes| - 1], imports, paths)
      case Err(e) => Err(e)
      case Ok(l) =>
        match ClassImports(fm, classes[|classes| - 1], imports, paths)
        case Err(e) => Err(e)
        case Ok(more) => Ok(l + more)
  }

  // ---------------------------------------------------------------------
  // De-duplication by type text (lines 312-319)

  function TypeOf(i: Import): string {
    i.typeText
  }

  /** Lines 312-319: keeps the first import of each type text. */
  method DedupByType(imports: seq<Import>) returns (r: seq<Import>)
    ensures r == DistinctBy(imports, TypeOf)
    ensures forall i, j :: 0 <= i < j < |r| ==> r[i].typeText != r[j].typeText
    ensures r == Firsts(imports, TypeOf, |imports|)
  {
    r := [];
    var i := 0;
    while i < |imports|
      invariant 0 <= i <= |imports|
      invariant r == DistinctBy(imports[..i], TypeOf)
    {
      assert imports[..i + 1][..i] == imports[..i];
      assert imports[..i + 1][i] == imports[i];
      if !HasKey(r, TypeOf, imports[i].typeText) {
        r := r + [imports[i]];
      }
      i := i + 1;
    }
    assert imports[..i] == imports;
    DistinctByNoDuplicates(imports, TypeOf);
    DistinctByIsFirsts(imports, TypeOf);
  }

  // ---------------------------------------------------------------------
  // Merge by path (lines 330-348)

  /** The index of the first import with path `p`. */
  function FindPath(s: seq<Import>, p: string): (r: Option<nat>)
    ensures r.Some? ==> r.value < |s| && s[r.value].path == p && forall j :: 0 <= j < r.value ==> s[j].path != p
    ensures r.None? ==> forall j :: 0 <= j < |s| ==> s[j].path != p
    decreases |s|
  {
    if s == [] then None
    else if s[0].path == p then Some(0)
    else match FindPath(s[1..], p)
      case None => None
      case Some(j) => Some(j + 1)
  }

  /** The index of the last import with path `p`. */
  function FindLastPath(s: seq<Import>, p: string): (r: Option<nat>)
    ensures r.Some? ==> r.value < |s| && s[r.value].path == p && forall j :: r.value < j < |s| ==> s[j].path != p
    ensures r.None? ==> forall j :: 0 <= j < |s| ==> s[j].path != p
    decreases |s|
  {
    if s == [] then None
    else if s[|s| - 1].path == p then Some(|s| - 1)
    else FindLastPath(s[..|s| - 1], p)
  }

  /** Line 343-345: the type text an import is given from a later import's
      type text: the braces removed (the first of each), trimmed, split on
      commas, each clause once, and put back in braces. */
  function Reclause(t: string): string {
    TypeText(Unique(Split(Trim(ReplaceFirst(ReplaceFirst(t, '{'), '}')), ',')))
  }

  /** The merge as a left fold: an import whose path is new is kept; one
      whose path was seen overwrites the type text of the import kept for
      that path. */
  function Merged(s: seq<Import>): seq<Import>
    decreases |s|
  {
    if s == [] then []
    else
      var u := Merged(s[..|s| - 1]);
      var x := s[|s| - 1];
      match FindPath(u, x.path)
      case None => u + [x]
      case Some(j) => u[j := u[j].(typeText := Reclause(x.typeText))]
  }

  /** Lines 330-348. */
  method MergeSamePath(imports: seq<Import>) returns (r: seq<Import>)
    ensures r == Merged(imports)
  {
    r := [];
    var i := 0;
    while i < |imports|
      invariant 0 <= i <= |imports|
      invariant r == Merged(imports[..i])
    {
      assert imports[..i + 1][..i] == imports[..i];
      assert imports[..i + 1][i] == imports[i];
      var imp := imports[i];
      if |r| == 0 {
        r := r + [imp];
      } else {
        var same := FindPath(r, imp.path);
        if same.None? {
          r := r + [imp];
        } else {
          var clauses := Unique(Split(Trim(ReplaceFirst(ReplaceFirst(imp.typeText, '{'), '}')), ','));
          r := r[same.value := r[same.value].(typeText := "{ " + Join(clauses, ",") + " }")];
        }
      }
      i := i + 1;
    }
    assert imports[..i] == imports;
  }

  /** The paths of a list of imports. */
  function Paths(s: seq<Import>): (r: seq<string>)
    ensures |r| == |s| && forall i :: 0 <= i < |s| ==> r[i] == s[i].path
  {
    seq(|s|, i requires 0 <= i < |s| => s[i].path)
  }

  /** The merge keeps one import per path, the paths in the order they
      first appear. */
  lemma {:induction false} MergedPaths(s: seq<Import>)
    ensures Paths(Merged(s)) == Unique(Paths(s))
    decreases |s|
  {
    if s != [] {
      var p := s[..|s| - 1];
      var x := s[|s| - 1];
      MergedPaths(p);
      var u := Merged(p);
      assert Paths(s) == Paths(p) + [x.path];
      assert HasKey(Paths(u), Identity, x.path) <==> FindPath(u, x.path).Some? by {
        if FindPath(u, x.path).Some? {
          assert Identity(Paths(u)[FindPath(u, x.path).value]) == x.path;
        }
      }
      match FindPath(u, x.path)
      case None =>
        assert Paths(u + [x]) == Paths(u) + [x.path];
      case Some(j) =>
        assert Paths(u[j := u[j].(typeText := Reclause(x.typeText))]) == Paths(u);
    }
  }

  /** A path is found iff it is one of the paths. */
  lemma FindPathIn(s: seq<Import>, q: string)
    ensures FindPath(s, q).Some? <==> q in Paths(s)
  {
    if FindPath(s, q).Some? {
      assert Paths(s)[FindPath(s, q).value] == q;
    }
    if q in Paths(s) {
      var k :| 0 <= k < |Paths(s)| && Paths(s)[k] == q;
      assert s[k].path == q;
    }
  }

  /** No two merged imports share a path, and a path survives iff some
      input import has it. */
  lemma MergedDistinctPaths(s: seq<Import>)
    ensures forall i, j :: 0 <= i < j < |Merged(s)| ==> Merged(s)[i].path != Merged(s)[j].path
    ensures forall q :: FindPath(Merged(s), q).Some? <==> FindPath(s, q).Some?
  {
    var m := Merged(s);
    MergedPaths(s);
    UniqueProperties(Paths(s));
    var ps := Paths(m);
    forall i, j | 0 <= i < j < |m| ensures m[i].path != m[j].path {
      assert ps[i] != ps[j];
    }
    forall q ensures FindPath(m, q).Some? <==> FindPath(s, q).Some? {
      FindPathIn(m, q);
      FindPathIn(s, q);
    }
  }

  /** `y` is what the merge makes of the imports of `s` with `y`'s path:
      the first of them, with its type text re-derived from the last one
      when there is more than one. */
  predicate Survivor(s: seq<Import>, y: Import) {
    FindPath(s, y.path).Some? && FindLastPath(s, y.path).Some? &&
    var f := FindPath(s, y.path).value;
    var g := FindLastPath(s, y.path).value;
    y == s[f].(typeText := if g == f then s[f].typeText else Reclause(s[g].typeText))
  }

  /** Each merged import is the first input import with its path; its type
      text is that import's own when no later import has the path, and
      otherwise is re-derived from the LAST import with the path alone:
      the clauses of the earlier imports are not kept. */
  lemma {:induction false} MergedSurvivors(s: seq<Import>)
    ensures forall i :: 0 <= i < |Merged(s)| ==> Survivor(s, Merged(s)[i])
    decreases |s|
  {
    if s != [] {
      var p := s[..|s| - 1];
      var x := s[|s| - 1];
      assert s == p + [x];
      MergedSurvivors(p);
      MergedDistinctPaths(p);
      var u := Merged(p);
      forall i | 0 <= i < |u| && u[i].path != x.path ensures Survivor(s, u[i]) {
        SurvivorSnoc(p, x, u[i]);
      }
      FindPathSnoc(p, x, x.path);
      match FindPath(u, x.path)
      case None =>
        assert FindPath(p, x.path).None?;
        assert Merged(s) == u + [x];
        forall i | 0 <= i < |u| ensures u[i].path != x.path { }
      case Some(j) =>
        var y := u[j].(typeText := Reclause(x.typeText));
        assert Merged(s) == u[j := y];
        forall i | 0 <= i < |u| && i != j ensures u[i].path != x.path {
          assert u[i].path != u[j].path;
        }
        assert Survivor(p, u[j]);
    }
  }

  /** An import of another path keeps its place as a survivor when `x` is
      appended. */
  lemma SurvivorSnoc(p: seq<Import>, x: Import, y: Import)
    requires y.path != x.path && Survivor(p, y)
    ensures Survivor(p + [x], y)
  {
    FindPathSnoc(p, x, y.path);
    assert (p + [x])[FindPath(p, y.path).value] == p[FindPath(p, y.path).value];
    assert (p + [x])[FindLastPath(p, y.path).value] == p[FindLastPath(p, y.path).value];
  }

  lemma FindPathSnoc(p: seq<Import>, x: Import, q: string)
    ensures FindLastPath(p + [x], q) == if x.path == q then Some(|p|) else FindLastPath(p, q)
    ensures FindPath(p + [x], q) == if FindPath(p, q).Some? then FindPath(p, q) else if x.path == q then Some(|p|) else None
  {
    assert (p + [x])[..|p|] == p;
    var r := FindPath(p + [x], q);
    if FindPath(p, q).Some? {
      assert (p + [x])[FindPath(p, q).value] == p[FindPath(p, q).value];
    } else if r.Some? {
      assert r.value == |p|;
    }
  }

  // ---------------------------------------------------------------------
  // How type texts and the merge fit together

  /** A clause as the parser reports an imported name: not empty, no
      whitespace, no comma and no brace. */
  predicate IsClause(c: string) {
    c != [] && forall k :: 0 <= k < |c| ==> c[k] != ',' && c[k] != '{' && c[k] != '}' && !IsWhitespace(c[k])
  }

  /** Re-deriving the type text of an import line gives the line's clauses
      back, each once. */
  lemma ReclauseTypeText(cs: seq<string>)
    requires |cs| >= 1 && forall k :: 0 <= k < |cs| ==> IsClause(cs[k])
    ensures Reclause(TypeText(cs)) == TypeText(Unique(cs))
  {
    var j := Join(cs, ",");
    JoinStart(cs, ",");
    JoinEnd(cs, ",");
    assert '}' !in j by {
      if '}' in j {
        JoinChars(cs, ",", '}');
      }
    }
    var t := TypeText(cs);
    assert t == "{" + (" " + j + " }");
    assert ReplaceFirst(t, '{') == " " + j + " }";
    assert " " + j + " }" == (" " + j) + " }";
    ReplaceFirstSkips(" " + j, " }", '}');
    assert ReplaceFirst(" }", '}') == " ";
    assert ReplaceFirst(ReplaceFirst(t, '{'), '}') == " " + j + " ";
    TrimPadded(j, " ", " ");
    assert forall k :: 0 <= k < |cs| ==> ',' !in cs[k];
    JoinSplit(cs, ',');
  }

  /** Two single-clause imports with one path merge into the first import
      carrying the second one's clause only: the merge does not take the
      union of the clauses. */
  lemma SamePathKeepsLaterClauses(a: string, b: string, path: string, fa: bool, fb: bool)
    requires IsClause(a) && IsClause(b)
    ensures Merged([Import(TypeText([a]), path, fa), Import(TypeText([b]), path, fb)])
      == [Import(TypeText([b]), path, fa)]
  {
    var s := [Import(TypeText([a]), path, fa), Import(TypeText([b]), path, fb)];
    assert s[..1] == [s[0]];
    assert [s[0]][..0] == [];
    assert Merged([s[0]]) == [s[0]];
    ReclauseTypeText([b]);
    assert Unique([b]) == [b] by {
      assert [b][..0] == [];
    }
  }

  // ---------------------------------------------------------------------
  // The whole step

  /** `makeCorrectImports(fm, possible)`: the file's new import list. */
  function CorrectedImports(fm: FileMetadata, possible: seq<ImportNode>, env: Env): Result<seq<Import>> {
    match PushedImports(fm, fm.classes, possible, env.paths)
    case Err(e) => Err(e)
    case Ok(all) =>
      var d := DistinctBy(all, TypeOf);
      Ok(Merged(env.dependencyImports(d, fm.(imports := d))))
  }

  /** The step throws exactly when the file has no mapper path and one of
      its classes selects a mapper line, and otherwise leaves at most one
      import per path. */
  lemma CorrectedImportsProperties(fm: FileMetadata, possible: seq<ImportNode>, env: Env)
    ensures CorrectedImports(fm, possible, env).Err? <==>
      fm.mapperPath.None? && exists c :: 0 <= c < |fm.classes| && ClassNeedsMapperPath(fm.classes[c], possible)
    ensures CorrectedImports(fm, possible, env).Err? ==>
      CorrectedImports(fm, possible, env).error == MapperPathMissing(fm.filename)
    ensures CorrectedImports(fm, possible, env).Ok? ==>
      var r := CorrectedImports(fm, possible, env).value;
      forall i, j :: 0 <= i < j < |r| ==> r[i].path != r[j].path
  {
    PushedImportsFails(fm, fm.classes, possible, env.paths);
    match PushedImports(fm, fm.classes, possible, env.paths)
    case Err(e) =>
    case Ok(all) =>
      var d := DistinctBy(all, TypeOf);
      MergedDistinctPaths(env.dependencyImports(d, fm.(imports := d)));
  }

  /** Some import selected for class `cls` holds one of its mapper-only
      names. */
  predicate ClassNeedsMapperPath(cls: ClassMetadata, imports: seq<ImportNode>) {
    SomeMapperLine(imports, SelectedIndices(cls, imports), MapperNames(cls))
  }

  /** The class loop throws exactly when the file has no mapper path and
      some class selects a mapper line. */
  lemma {:induction false} PushedImportsFails(fm: FileMetadata, classes: seq<ClassMetadata>, imports: seq<ImportNode>,
                                              paths: PathOps)
    ensures PushedImports(fm, classes, imports, paths).Err? <==>
      fm.mapperPath.None? && exists c :: 0 <= c < |classes| && ClassNeedsMapperPath(classes[c], imports)
    ensures PushedImports(fm, classes, imports, paths).Err? ==>
      PushedImports(fm, classes, imports, paths).error == MapperPathMissing(fm.filename)
    decreases |classes|
  {
    if classes != [] {
      var p := classes[..|classes| - 1];
      PushedImportsFails(fm, p, imports, paths);
      var cls := classes[|classes| - 1];
      SelectedInRange(cls, imports);
      BuildAllFails(fm, imports, SelectedIndices(cls, imports), MapperNames(cls), paths);
      ExistsSnoc(classes, p, c => ClassNeedsMapperPath(c, imports));
    }
  }

  /** Lines 241-322, computing the new import list of `fm`. */
  method MakeCorrectImports(fm: FileMetadata, possible: seq<ImportNode>, env: Env) returns (r: Result<seq<Import>>)
    ensures r == CorrectedImports(fm, possible, env)
  {
    var pushed := PushClassImports(fm, possible, env.paths);
    if pushed.Err? {
      return Err(pushed.error);
    }
    var dedup := DedupByType(pushed.value);
    var withDeps := env.dependencyImports(dedup, fm.(imports := dedup));
    var merged := MergeSamePath(withDeps);
    r := Ok(merged);
  }

  /** Lines 242-311: the class loop, appending each class's lines to the
      file's import list. */
  method PushClassImports(fm: FileMetadata, possible: seq<ImportNode>, paths: PathOps) returns (r: Result<seq<Import>>)
    ensures r == PushedImports(fm, fm.classes, possible, paths)
  {
    var acc := fm.imports;
    var c := 0;
    while c < |fm.classes|
      invariant 0 <= c <= |fm.classes|
      invariant PushedImports(fm, fm.classes[..c], possible, paths) == Ok(acc)
    {
      PushedImportsSnoc(fm, fm.classes, c, possible, paths, acc);
      var pushed := BuildClassImports(fm, fm.classes[c], possible, paths);
      if pushed.Err? {
        PushedImportsPrefixFails(fm, fm.classes, c + 1, possible, paths);
        assert fm.classes[..|fm.classes|] == fm.classes;
        return Err(pushed.error);
      }
      acc := acc + pushed.value;
      c := c + 1;
    }
    assert fm.classes[..c] == fm.classes;
    r := Ok(acc);
  }

  /** Lines 243-310 for one class: the lines it pushes, in index order. */
  method BuildClassImports(fm: FileMetadata, cls: ClassMetadata, possible: seq<ImportNode>, paths: PathOps)
    returns (r: Result<seq<Import>>)
    ensures r == ClassImports(fm, cls, possible, paths)
  {
    var idx := CollectIndices(cls, possible);
    SelectedInRange(cls, possible);
    r := BuildEach(fm, possible, idx, MapperNames(cls), paths);
  }

  /** Lines 279-310: one import line per selected index, stopping at the
      first throw. */
  method BuildEach(fm: FileMetadata, possible: seq<ImportNode>, idx: seq<nat>, names: seq<string>, paths: PathOps)
    returns (r: Result<seq<Import>>)
    requires forall a :: 0 <= a < |idx| ==> idx[a] < |possible|
    ensures r == BuildAll(fm, possible, idx, names, paths)
  {
    var pushed: seq<Import> := [];
    var n := 0;
    while n < |idx|
      invariant 0 <= n <= |idx|
      invariant BuildAll(fm, possible, idx[..n], names, paths) == Ok(pushed)
    {
      BuildAllSnoc(fm, possible, idx, n, names, paths, pushed);
      var imp := BuildImport(fm, possible[idx[n]], names, paths);
      if imp.Err? {
        BuildAllPrefixFails(fm, possible, idx, n + 1, names, paths);
        assert idx[..|idx|] == idx;
        return Err(imp.error);
      }
      pushed := pushed + [imp.value];
      n := n + 1;
    }
    assert idx[..n] == idx;
    r := Ok(pushed);
  }

  lemma BuildAllSnoc(fm: FileMetadata, imports: seq<ImportNode>, idx: seq<nat>, n: nat, mapperNames: seq<string>,
                     paths: PathOps, done: seq<Import>)
    requires n < |idx| && forall a :: 0 <= a < |idx| ==> idx[a] < |imports|
    requires BuildAll(fm, imports, idx[..n], mapperNames, paths) == Ok(done)
    ensures BuildAll(fm, imports, idx[..n + 1], mapperNames, paths)
      == match BuildImport(fm, imports[idx[n]], mapperNames, paths)
         case Err(e) => Err(e)
         case Ok(imp) => Ok(done + [imp])
  {
    assert idx[..n + 1][..n] == idx[..n];
  }

  /** Once the lines of a prefix of `idx` fail, so do those of `idx`. */
  lemma {:induction false} BuildAllPrefixFails(fm: FileMetadata, imports: seq<ImportNode>, idx: seq<nat>, n: nat,
                                               mapperNames: seq<string>, paths: PathOps)
    requires n <= |idx| && forall a :: 0 <= a < |idx| ==> idx[a] < |imports|
    requires BuildAll(fm, imports, idx[..n], mapperNames, paths).Err?
    ensures BuildAll(fm, imports, idx[..|idx|], mapperNames, paths) == BuildAll(fm, imports, idx[..n], mapperNames, paths)
    decreases |idx| - n
  {
    if n < |idx| {
      assert idx[..n + 1][..n] == idx[..n];
      BuildAllPrefixFails(fm, imports, idx, n + 1, mapperNames, paths);
    }
  }

  /** One more class of the loop: its lines appended, or its error. */
  lemma PushedImportsSnoc(fm: FileMetadata, classes: seq<ClassMetadata>, c: nat, imports: seq<ImportNode>,
                          paths: PathOps, acc: seq<Import>)
    requires c < |classes| && PushedImports(fm, classes[..c], imports, paths) == Ok(acc)
    ensures PushedImports(fm, classes[..c + 1], imports, paths) ==
      match ClassImports(fm, classes[c], imports, paths)
      case Err(e) => Err(e)
      case Ok(more) => Ok(acc + more)
  {
    assert classes[..c + 1][..c] == classes[..c];
  }

  lemma {:induction false} PushedImportsPrefixFails(fm: FileMetadata, classes: seq<ClassMetadata>, n: nat,
                                                    imports: seq<ImportNode>, paths: PathOps)
    requires n <= |classes|
    requires PushedImports(fm, classes[..n], imports, paths).Err?
    ensures PushedImports(fm, classes[..|classes|], imports, paths) == PushedImports(fm, classes[..n], imports, paths)
    decreases |classes| - n
  {
    if n < |classes| {
      assert classes[..n + 1][..n] == classes[..n];
      PushedImportsPrefixFails(fm, classes, n + 1, imports, paths);
    }
  }
}
