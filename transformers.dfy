/** Transformer resolution (`saveInfoAboutTransformer` in
    src/tasks/createViewModels.ts): a field converter is either a function
    found through an import of the source file, whose declaration supplies
    `isAsync` and a context parameter type, or a literal constant. */
module Transformers {
  import opened Text
  import opened Model

  /** `imports.find(i => i.clauses.indexOf(name) > -1)`, as an index. */
  function FindImport(imports: seq<ImportNode>, name: string): (r: Option<nat>)
    ensures r.Some? ==> r.value < |imports| && name in imports[r.value].clauses
    ensures r.Some? ==> forall j :: 0 <= j < r.value ==> name !in imports[j].clauses
    ensures r.None? ==> forall j :: 0 <= j < |imports| ==> name !in imports[j].clauses
    decreases |imports|
  {
    if imports == [] then None
    else if name in imports[0].clauses then Some(0)
    else match FindImport(imports[1..], name)
      case None => None
      case Some(i) => Some(i + 1)
  }

  /** `functions.find(f => f.name === name)`, as an index. */
  function FindFunction(functions: seq<FunctionDecl>, name: string): (r: Option<nat>)
    ensures r.Some? ==> r.value < |functions| && functions[r.value].name == name
    ensures r.Some? ==> forall j :: 0 <= j < r.value ==> functions[j].name != name
    ensures r.None? ==> forall j :: 0 <= j < |functions| ==> functions[j].name != name
    decreases |functions|
  {
    if functions == [] then None
    else if functions[0].name == name then Some(0)
    else match FindFunction(functions[1..], name)
      case None => None
      case Some(i) => Some(i + 1)
  }

  /** A binding whose function text matches no import is a literal: it is
      quoted as a string unless it is `null`, `undefined` or a number. */
  function ClassifyLiteral(b: Binding): Binding {
    b.(isPrimitive := true,
       isPrimitiveString := if b.func != "null" && b.func != "undefined" then !IsNumeric(b.func) else false)
  }

  /** The declared type of a converter's second parameter and whether it is
      mandatory; none when there is no second parameter or it has no type. */
  datatype Candidate = Candidate(typeName: string, mandatory: bool)

  function ContextCandidate(f: FunctionDecl): (r: Option<Candidate>)
    ensures r.Some? <==> |f.params| > 1 && f.params[1].typeName != ""
    ensures r.Some? ==> r.value == Candidate(f.params[1].typeName, f.params[1].mandatory)
  {
    if |f.params| > 1 && f.params[1].typeName != "" then Some(Candidate(f.params[1].typeName, f.params[1].mandatory))
    else None
  }

  /** The accept-or-throw rule for a direction's context type: a candidate
      is taken when nothing is set yet, when it repeats the current value,
      or when it is `any`; it then replaces the value, and mandatory
      accumulates. Anything else is a conflict. */
  function Unify(info: ContextTypeInfo, c: Candidate): Result<ContextTypeInfo> {
    if Unset(info.value) || info.value.value == c.typeName || c.typeName == "any" then
      Ok(ContextTypeInfo(Some(c.typeName), c.mandatory || info.mandatory))
    else
      Err(ContextTypeConflict(info.value.value, c.typeName))
  }

  /** A field's converter in direction `d` names a function of `functions`
      that declares a second parameter. */
  predicate HasContextParam(f: FieldMetadata, d: Direction, functions: seq<FunctionDecl>) {
    f.convert.Some? && f.convert.value.Get(d).Some? &&
    match FindFunction(functions, f.convert.value.Get(d).value.func)
    case None => false
    case Some(j) => |functions[j].params| > 1
  }

  /** The names pushed onto `contextTypeFields[d]` by one accepted
      context type, in field order. */
  function FieldsWithContext(fields: seq<FieldMetadata>, d: Direction, functions: seq<FunctionDecl>): seq<string>
    decreases |fields|
  {
    if fields == [] then []
    else
      FieldsWithContext(fields[..|fields| - 1], d, functions)
      + (if HasContextParam(fields[|fields| - 1], d, functions) then [fields[|fields| - 1].name] else [])
  }

  /** The class meta with field `k`'s binding for `d` replaced by `b`;
      everything else is left as it was. */
  function WithBinding(cm: ClassMetadata, k: nat, d: Direction, b: Binding): (r: ClassMetadata)
    requires k < |cm.fields| && cm.fields[k].convert.Some?
    ensures r == cm.(fields := r.fields)
    ensures |r.fields| == |cm.fields|
    ensures forall i :: 0 <= i < |cm.fields| && i != k ==> r.fields[i] == cm.fields[i]
    ensures r.fields[k] == cm.fields[k].(convert := r.fields[k].convert)
    ensures r.fields[k].convert.Some?
    ensures r.fields[k].convert.value.Get(d) == Some(b)
    ensures r.fields[k].convert.value.Get(Other(d)) == cm.fields[k].convert.value.Get(Other(d))
  {
    var f := cm.fields[k];
    cm.(fields := cm.fields[k := f.(convert := Some(f.convert.value.Set(d, Some(b))))])
  }

  /** The state `saveInfoAboutTransformer` leaves behind: the class meta,
      the file's list of possible imports, and whether it threw. */
  datatype SaveResult = SaveResult(meta: ClassMetadata, imports: seq<ImportNode>, outcome: Outcome)

  /** What one call of `saveInfoAboutTransformer(d, func, possible, cm)`
      does, `func` being field `k`'s converter and `load` the parse of the
      module an import points at. A failure keeps the updates made before
      the throw. */
  function SaveInfo(d: Direction, cm: ClassMetadata, k: nat, possible: seq<ImportNode>,
                    load: seq<string> -> ParsedModule): (r: SaveResult)
    requires k < |cm.fields| && cm.fields[k].convert.Some?
    ensures r.meta == cm.(fields := r.meta.fields, contextType := r.meta.contextType,
                          contextTypeFields := r.meta.contextTypeFields, isAsync := r.meta.isAsync)
    ensures |r.meta.fields| == |cm.fields|
    ensures forall i :: 0 <= i < |cm.fields| ==>
      r.meta.fields[i].convert.Some? == cm.fields[i].convert.Some?
  {
    var b := cm.fields[k].convert.value.Get(d);
    if b.None? || b.value.func == "" then SaveResult(cm, possible, Pass)
    else
      match FindImport(possible, b.value.func)
      case None => SaveResult(WithBinding(cm, k, d, ClassifyLiteral(b.value)), possible, Pass)
      case Some(i) => SaveImported(d, cm, k, possible, load(possible[i].absPathNode))
  }

  /** Lines 150-191: the converter's module `m` has been parsed. */
  function SaveImported(d: Direction, cm: ClassMetadata, k: nat, possible: seq<ImportNode>, m: ParsedModule): (r: SaveResult)
    requires k < |cm.fields| && cm.fields[k].convert.Some? && cm.fields[k].convert.value.Get(d).Some?
    ensures r.meta == cm.(fields := r.meta.fields, contextType := r.meta.contextType,
                          contextTypeFields := r.meta.contextTypeFields, isAsync := r.meta.isAsync)
    ensures |r.meta.fields| == |cm.fields|
    ensures forall i :: 0 <= i < |cm.fields| ==>
      r.meta.fields[i].convert.Some? == cm.fields[i].convert.Some?
  {
    var b := cm.fields[k].convert.value.Get(d).value;
    match FindFunction(m.functions, b.func)
    case None => SaveResult(cm, possible, Fail(TransformerFunctionNotFound(b.func)))
    case Some(j) =>
      var f := m.functions[j];
      var cm1 := WithBinding(cm, k, d, b.(isAsync := f.isAsync, isPrimitive := false));
      var cm2 := if cm1.isAsync.Get(d) then cm1 else cm1.(isAsync := cm1.isAsync.Set(d, f.isAsync));
      match ContextCandidate(f)
      case None => SaveResult(cm2, possible, Pass)
      case Some(c) => SaveContext(d, cm2, c, possible, m)
  }

  /** Lines 162-191: a candidate context type `c` has been found. */
  function SaveContext(d: Direction, cm: ClassMetadata, c: Candidate, possible: seq<ImportNode>, m: ParsedModule): (r: SaveResult)
    ensures r.meta == cm.(contextType := r.meta.contextType, contextTypeFields := r.meta.contextTypeFields)
  {
    match Unify(cm.contextType.Get(d), c)
    case Err(e) => SaveResult(cm, possible, Fail(e))
    case Ok(info) =>
      var cm3 := cm.(contextType := cm.contextType.Set(d, info),
                     contextTypeFields := cm.contextTypeFields.Set(d,
                       cm.contextTypeFields.Get(d) + FieldsWithContext(cm.fields, d, m.functions)));
      if IsPrimitiveType(c.typeName) then SaveResult(cm3, possible, Pass)
      else match FindImport(m.imports, c.typeName)
        case None => SaveResult(cm3, possible, Fail(ContextTypeImportNotFound(c.typeName)))
        case Some(ci) =>
          SaveResult(cm3, possible + [ImportNode([c.typeName], m.imports[ci].absPathNode, false)], Pass)
  }

  /** `createMetadatas` lines 58-64: both directions of every field that has
      a converter, field by field, stopping at the first throw. */
  function ResolveFields(cm: ClassMetadata, k: nat, possible: seq<ImportNode>,
                         load: seq<string> -> ParsedModule): (r: SaveResult)
    requires k <= |cm.fields|
    ensures |r.meta.fields| == |cm.fields|
    decreases |cm.fields| - k
  {
    if k == |cm.fields| then SaveResult(cm, possible, Pass)
    else if cm.fields[k].convert.None? then ResolveFields(cm, k + 1, possible, load)
    else
      var r1 := SaveInfo(ToView, cm, k, possible, load);
      if r1.outcome.Fail? then r1
      else
        var r2 := SaveInfo(FromView, r1.meta, k, r1.imports, load);
        if r2.outcome.Fail? then r2 else ResolveFields(r2.meta, k + 1, r2.imports, load)
  }

  // ---------------------------------------------------------------------
  // Properties of one resolution step

  /** A converter that no import names becomes a literal: primitive, and
      quoted unless it is `null`, `undefined` or numeric. Nothing else of
      the class or the import list changes. */
  lemma LiteralBinding(d: Direction, cm: ClassMetadata, k: nat, possible: seq<ImportNode>,
                       load: seq<string> -> ParsedModule)
    requires k < |cm.fields| && cm.fields[k].convert.Some?
    requires cm.fields[k].convert.value.Get(d).Some?
    requires cm.fields[k].convert.value.Get(d).value.func != ""
    requires forall j :: 0 <= j < |possible| ==> cm.fields[k].convert.value.Get(d).value.func !in possible[j].clauses
    ensures var r := SaveInfo(d, cm, k, possible, load);
      var t := cm.fields[k].convert.value.Get(d).value.func;
      var b := r.meta.fields[k].convert.value.Get(d);
      && r.outcome == Pass && r.imports == possible
      && b.Some? && b.value.func == t && b.value.isPrimitive
      && (b.value.isPrimitiveString <==> t != "null" && t != "undefined" && !IsNumeric(t))
      && b.value.isAsync == cm.fields[k].convert.value.Get(d).value.isAsync
      && r.meta == cm.(fields := r.meta.fields)
  {
    var b := cm.fields[k].convert.value.Get(d).value;
    assert FindImport(possible, b.func).None?;
  }

  /** A converter found through an import takes the declaration's `isAsync`
      and is not primitive; the class's async flag for `d` becomes
      `old || isAsync`, and the other direction's flag is untouched. */
  lemma ImportedBinding(d: Direction, cm: ClassMetadata, k: nat, possible: seq<ImportNode>,
                        load: seq<string> -> ParsedModule, i: nat, j: nat)
    requires k < |cm.fields| && cm.fields[k].convert.Some?
    requires cm.fields[k].convert.value.Get(d).Some?
    requires cm.fields[k].convert.value.Get(d).value.func != ""
    requires FindImport(possible, cm.fields[k].convert.value.Get(d).value.func) == Some(i)
    requires FindFunction(load(possible[i].absPathNode).functions, cm.fields[k].convert.value.Get(d).value.func) == Some(j)
    ensures var r := SaveInfo(d, cm, k, possible, load);
      var f := load(possible[i].absPathNode).functions[j];
      var b := r.meta.fields[k].convert.value.Get(d);
      && b.Some? && b.value.isAsync == f.isAsync && !b.value.isPrimitive
      && r.meta.isAsync.Get(d) == (cm.isAsync.Get(d) || f.isAsync)
      && r.meta.isAsync.Get(Other(d)) == cm.isAsync.Get(Other(d))
  {
    var m := load(possible[i].absPathNode);
    assert SaveInfo(d, cm, k, possible, load) == SaveImported(d, cm, k, possible, m);
    SaveImportedBinding(d, cm, k, possible, m, j);
  }

  lemma SaveImportedBinding(d: Direction, cm: ClassMetadata, k: nat, possible: seq<ImportNode>,
                            m: ParsedModule, j: nat)
    requires k < |cm.fields| && cm.fields[k].convert.Some? && cm.fields[k].convert.value.Get(d).Some?
    requires FindFunction(m.functions, cm.fields[k].convert.value.Get(d).value.func) == Some(j)
    ensures var r := SaveImported(d, cm, k, possible, m);
      var b := r.meta.fields[k].convert.value.Get(d);
      && b.Some? && b.value.isAsync == m.functions[j].isAsync && !b.value.isPrimitive
      && r.meta.isAsync.Get(d) == (cm.isAsync.Get(d) || m.functions[j].isAsync)
      && r.meta.isAsync.Get(Other(d)) == cm.isAsync.Get(Other(d))
  {
    var b := cm.fields[k].convert.value.Get(d).value;
    var f := m.functions[j];
    var cm1 := WithBinding(cm, k, d, b.(isAsync := f.isAsync, isPrimitive := false));
    var cm2 := if cm1.isAsync.Get(d) then cm1 else cm1.(isAsync := cm1.isAsync.Set(d, f.isAsync));
    var r := SaveImported(d, cm, k, possible, m);
    assert r.meta.fields == cm2.fields && r.meta.isAsync == cm2.isAsync by {
      var c := ContextCandidate(f);
      if c.Some? {
        assert r == SaveContext(d, cm2, c.value, possible, m);
      }
    }
  }

  /** The per-direction async flags never go back to false. */
  lemma AsyncFlagsMonotone(d: Direction, cm: ClassMetadata, k: nat, possible: seq<ImportNode>,
                           load: seq<string> -> ParsedModule, e: Direction)
    requires k < |cm.fields| && cm.fields[k].convert.Some?
    ensures cm.isAsync.Get(e) ==> SaveInfo(d, cm, k, possible, load).meta.isAsync.Get(e)
  {
    var b := cm.fields[k].convert.value.Get(d);
    if b.Some? && b.value.func != "" {
      var fi := FindImport(possible, b.value.func);
      if fi.Some? {
        var m := load(possible[fi.value].absPathNode);
        assert SaveInfo(d, cm, k, possible, load) == SaveImported(d, cm, k, possible, m);
        SaveImportedKeepsAsync(d, cm, k, possible, m, e);
      }
    }
  }

  lemma SaveImportedKeepsAsync(d: Direction, cm: ClassMetadata, k: nat, possible: seq<ImportNode>,
                               m: ParsedModule, e: Direction)
    requires k < |cm.fields| && cm.fields[k].convert.Some? && cm.fields[k].convert.value.Get(d).Some?
    ensures cm.isAsync.Get(e) ==> SaveImported(d, cm, k, possible, m).meta.isAsync.Get(e)
  {
    var b := cm.fields[k].convert.value.Get(d).value;
    var fj := FindFunction(m.functions, b.func);
    if fj.Some? {
      var f := m.functions[fj.value];
      var cm1 := WithBinding(cm, k, d, b.(isAsync := f.isAsync, isPrimitive := false));
      var cm2 := if cm1.isAsync.Get(d) then cm1 else cm1.(isAsync := cm1.isAsync.Set(d, f.isAsync));
      assert cm.isAsync.Get(e) ==> cm2.isAsync.Get(e);
      var c := ContextCandidate(f);
      if c.Some? {
        assert SaveImported(d, cm, k, possible, m) == SaveContext(d, cm2, c.value, possible, m);
      }
    }
  }

  /** A converter whose declaration has no typed second parameter leaves
      the context type and the context fields as they were, and adds no
      import. */
  lemma NoContextParamNoChange(d: Direction, cm: ClassMetadata, k: nat, possible: seq<ImportNode>,
                               load: seq<string> -> ParsedModule, i: nat, j: nat)
    requires k < |cm.fields| && cm.fields[k].convert.Some?
    requires cm.fields[k].convert.value.Get(d).Some?
    requires cm.fields[k].convert.value.Get(d).value.func != ""
    requires FindImport(possible, cm.fields[k].convert.value.Get(d).value.func) == Some(i)
    requires FindFunction(load(possible[i].absPathNode).functions, cm.fields[k].convert.value.Get(d).value.func) == Some(j)
    requires ContextCandidate(load(possible[i].absPathNode).functions[j]).None?
    ensures var r := SaveInfo(d, cm, k, possible, load);
      && r.outcome == Pass && r.imports == possible
      && r.meta.contextType == cm.contextType && r.meta.contextTypeFields == cm.contextTypeFields
  {
    var m := load(possible[i].absPathNode);
    assert SaveInfo(d, cm, k, possible, load) == SaveImported(d, cm, k, possible, m);
  }

  /** The call throws only when the import is found but its module does not
      declare the function (and then nothing has changed), when the context
      types conflict, or when a non-primitive context type has no import in
      the converter's module. The import list gains at most one entry: a
      single-clause import that is not a package. */
  lemma SaveInfoFailures(d: Direction, cm: ClassMetadata, k: nat, possible: seq<ImportNode>,
                         load: seq<string> -> ParsedModule)
    requires k < |cm.fields| && cm.fields[k].convert.Some?
    ensures var r := SaveInfo(d, cm, k, possible, load);
      r.outcome.Fail? ==>
        (r.outcome.error.TransformerFunctionNotFound? && r.meta == cm)
        || r.outcome.error.ContextTypeConflict?
        || (r.outcome.error.ContextTypeImportNotFound? && !IsPrimitiveType(r.outcome.error.contextType))
    ensures var r := SaveInfo(d, cm, k, possible, load);
      r.imports == possible || exists v, p :: r.imports == possible + [ImportNode([v], p, false)]
  {
    var b := cm.fields[k].convert.value.Get(d);
    if b.Some? && b.value.func != "" {
      match FindImport(possible, b.value.func)
      case None =>
      case Some(i) =>
        var m := load(possible[i].absPathNode);
        assert SaveInfo(d, cm, k, possible, load) == SaveImported(d, cm, k, possible, m);
        ImportedFailures(d, cm, k, possible, m);
    }
  }

  /** The converse for the missing function: a converter that names an
      import whose module has no function of that name throws, and
      changes neither the class meta nor the import list. */
  lemma MissingFunctionThrows(d: Direction, cm: ClassMetadata, k: nat, possible: seq<ImportNode>,
                              load: seq<string> -> ParsedModule)
    requires k < |cm.fields| && cm.fields[k].convert.Some?
    requires cm.fields[k].convert.value.Get(d).Some? && cm.fields[k].convert.value.Get(d).value.func != ""
    requires FindImport(possible, cm.fields[k].convert.value.Get(d).value.func).Some?
    requires FindFunction(load(possible[FindImport(possible, cm.fields[k].convert.value.Get(d).value.func).value].absPathNode).functions,
                          cm.fields[k].convert.value.Get(d).value.func).None?
    ensures SaveInfo(d, cm, k, possible, load)
      == SaveResult(cm, possible, Fail(TransformerFunctionNotFound(cm.fields[k].convert.value.Get(d).value.func)))
  {
  }

  /** The same, once the converter's module `m` has been parsed. */
  lemma ImportedFailures(d: Direction, cm: ClassMetadata, k: nat, possible: seq<ImportNode>, m: ParsedModule)
    requires k < |cm.fields| && cm.fields[k].convert.Some? && cm.fields[k].convert.value.Get(d).Some?
    ensures var r := SaveImported(d, cm, k, possible, m);
      r.outcome.Fail? ==>
        (r.outcome.error.TransformerFunctionNotFound? && r.meta == cm)
        || r.outcome.error.ContextTypeConflict?
        || (r.outcome.error.ContextTypeImportNotFound? && !IsPrimitiveType(r.outcome.error.contextType))
    ensures var r := SaveImported(d, cm, k, possible, m);
      r.imports == possible || exists v, p :: r.imports == possible + [ImportNode([v], p, false)]
  {
    var b := cm.fields[k].convert.value.Get(d).value;
    match FindFunction(m.functions, b.func)
    case None =>
    case Some(j) =>
      var f := m.functions[j];
      var cm1 := WithBinding(cm, k, d, b.(isAsync := f.isAsync, isPrimitive := false));
      var cm2 := if cm1.isAsync.Get(d) then cm1 else cm1.(isAsync := cm1.isAsync.Set(d, f.isAsync));
      match ContextCandidate(f)
      case None =>
      case Some(c) =>
        assert SaveImported(d, cm, k, possible, m) == SaveContext(d, cm2, c, possible, m);
        if Unify(cm2.contextType.Get(d), c).Ok? {
          ContextImportAppended(d, cm2, c, possible, m);
        }
  }

  /** After an accepted context type, the direction's value and the context
      fields are updated and the other direction is untouched; a
      non-primitive type appends exactly one import of that type alone, a
      primitive one appends nothing. */
  lemma ContextImportAppended(d: Direction, cm: ClassMetadata, c: Candidate, possible: seq<ImportNode>, m: ParsedModule)
    requires Unify(cm.contextType.Get(d), c).Ok?
    ensures var r := SaveContext(d, cm, c, possible, m);
      && r.meta.contextType.Get(d) == Unify(cm.contextType.Get(d), c).value
      && r.meta.contextType.Get(Other(d)) == cm.contextType.Get(Other(d))
      && r.meta.contextTypeFields.Get(d) == cm.contextTypeFields.Get(d) + FieldsWithContext(cm.fields, d, m.functions)
      && r.meta.contextTypeFields.Get(Other(d)) == cm.contextTypeFields.Get(Other(d))
      && (IsPrimitiveType(c.typeName) ==> r.imports == possible && r.outcome == Pass)
      && (!IsPrimitiveType(c.typeName) && FindImport(m.imports, c.typeName).Some? ==>
            r.outcome == Pass &&
            r.imports == possible + [ImportNode([c.typeName], m.imports[FindImport(m.imports, c.typeName).value].absPathNode, false)])
      && (!IsPrimitiveType(c.typeName) && FindImport(m.imports, c.typeName).None? ==>
            r.outcome == Fail(ContextTypeImportNotFound(c.typeName)) && r.imports == possible)
  {
  }

  /** A conflicting candidate makes the call throw, with nothing of the
      context state changed. */
  lemma ContextConflictThrows(d: Direction, cm: ClassMetadata, c: Candidate, possible: seq<ImportNode>, m: ParsedModule)
    requires Unify(cm.contextType.Get(d), c).Err?
    ensures SaveContext(d, cm, c, possible, m) == SaveResult(cm, possible, Fail(ContextTypeConflict(cm.contextType.Get(d).value.value, c.typeName)))
  {
  }
  // ---------------------------------------------------------------------
  // The unification rule on its own, and over a sequence of converters

  /** A candidate is accepted iff the value is unset, equal to it, or the
      candidate is `any`; an accepted candidate becomes the value and
      mandatory becomes `old || new`. */
  lemma UnifyAcceptance(info: ContextTypeInfo, c: Candidate)
    ensures Unify(info, c).Ok? <==>
      (Unset(info.value) || info.value == Some(c.typeName) || c.typeName == "any")
    ensures Unify(info, c).Ok? ==>
      Unify(info, c).value == ContextTypeInfo(Some(c.typeName), info.mandatory || c.mandatory)
    ensures Unify(info, c).Err? ==> Unify(info, c).error == ContextTypeConflict(info.value.value, c.typeName)
  {
  }

  /** Once the value is `any`, a concrete candidate is a conflict: `any`
      replaces a concrete type, but is not replaced by one. */
  lemma AnyThenConcreteConflicts(mandatory: bool, c: Candidate)
    requires c.typeName != "any"
    ensures Unify(ContextTypeInfo(Some("any"), mandatory), c).Err?
  {
  }

  /** Unification of a sequence of candidates, left to right from `info`. */
  function UnifyAll(info: ContextTypeInfo, cs: seq<Candidate>): Result<ContextTypeInfo>
    decreases |cs|
  {
    if cs == [] then Ok(info)
    else match UnifyAll(info, cs[..|cs| - 1])
      case Err(e) => Err(e)
      case Ok(i) => Unify(i, cs[|cs| - 1])
  }

  /** Every candidate after the first must be `any` or repeat the one just
      before it. */
  predicate Chained(cs: seq<Candidate>) {
    forall j :: 0 < j < |cs| ==> cs[j].typeName == "any" || cs[j].typeName == cs[j - 1].typeName
  }

  predicate AnyMandatory(cs: seq<Candidate>) {
    exists j :: 0 <= j < |cs| && cs[j].mandatory
  }

  /** Starting from an unset value, a sequence of non-empty candidates
      unifies iff it is chained; the result is the last candidate, and it
      is mandatory iff some candidate was. */
  lemma {:induction false} UnifyAllFromUnset(mandatory: bool, cs: seq<Candidate>)
    requires forall j :: 0 <= j < |cs| ==> cs[j].typeName != ""
    ensures UnifyAll(ContextTypeInfo(None, mandatory), cs).Ok? <==> Chained(cs)
    ensures |cs| > 0 && Chained(cs) ==>
      UnifyAll(ContextTypeInfo(None, mandatory), cs).value
        == ContextTypeInfo(Some(cs[|cs| - 1].typeName), mandatory || AnyMandatory(cs))
    decreases |cs|
  {
    if cs != [] {
      var p := cs[..|cs| - 1];
      UnifyAllFromUnset(mandatory, p);
      forall j | 0 <= j < |p| ensures p[j] == cs[j] { }
      if |p| > 0 {
        assert Chained(cs) <==>
          (Chained(p) && (cs[|cs| - 1].typeName == "any" || cs[|cs| - 1].typeName == p[|p| - 1].typeName));
        if Chained(p) {
          assert AnyMandatory(cs) <==> AnyMandatory(p) || cs[|cs| - 1].mandatory;
        }
      } else {
        assert AnyMandatory(cs) <==> cs[0].mandatory;
      }
    }
  }

  /** The outcome depends on order: `T, any` unifies to `any`, while
      `T, any, T` fails. */
  lemma UnifyIsOrderDependent(t: string)
    requires t != "" && t != "any"
    ensures UnifyAll(ContextTypeInfo(None, false), [Candidate(t, false), Candidate("any", false)])
      == Ok(ContextTypeInfo(Some("any"), false))
    ensures UnifyAll(ContextTypeInfo(None, false), [Candidate(t, false), Candidate("any", false), Candidate(t, false)]).Err?
  {
    var cs := [Candidate(t, false), Candidate("any", false), Candidate(t, false)];
    assert cs[..2] == [Candidate(t, false), Candidate("any", false)];
    assert cs[..2][..1] == [Candidate(t, false)];
    assert UnifyAll(ContextTypeInfo(None, false), [Candidate(t, false)]) == Ok(ContextTypeInfo(Some(t), false));
    assert Unify(ContextTypeInfo(Some(t), false), Candidate("any", false)) == Ok(ContextTypeInfo(Some("any"), false));
  }

  // ---------------------------------------------------------------------
  // Properties of resolving a whole class

  /** Resolving every field only appends to the list of possible imports,
      never takes back an async flag, and keeps the class's identity and
      origin. */
  lemma {:induction false} ResolveFieldsMonotone(cm: ClassMetadata, k: nat, possible: seq<ImportNode>,
                                                 load: seq<string> -> ParsedModule, e: Direction)
    requires k <= |cm.fields|
    ensures possible <= ResolveFields(cm, k, possible, load).imports
    ensures cm.isAsync.Get(e) ==> ResolveFields(cm, k, possible, load).meta.isAsync.Get(e)
    ensures ResolveFields(cm, k, possible, load).meta.name == cm.name
    ensures ResolveFields(cm, k, possible, load).meta.baseName == cm.baseName
    ensures ResolveFields(cm, k, possible, load).meta.baseNamePath == cm.baseNamePath
    ensures ResolveFields(cm, k, possible, load).meta.generateView == cm.generateView
    ensures ResolveFields(cm, k, possible, load).meta.needMapper == cm.needMapper
    decreases |cm.fields| - k
  {
    if k < |cm.fields| {
      if cm.fields[k].convert.None? {
        ResolveFieldsMonotone(cm, k + 1, possible, load, e);
      } else {
        var r1 := SaveInfo(ToView, cm, k, possible, load);
        SaveInfoFailures(ToView, cm, k, possible, load);
        AsyncFlagsMonotone(ToView, cm, k, possible, load, e);
        if r1.outcome.Pass? {
          var r2 := SaveInfo(FromView, r1.meta, k, r1.imports, load);
          SaveInfoFailures(FromView, r1.meta, k, r1.imports, load);
          AsyncFlagsMonotone(FromView, r1.meta, k, r1.imports, load, e);
          if r2.outcome.Pass? {
            ResolveFieldsMonotone(r2.meta, k + 1, r2.imports, load, e);
          }
        }
      }
    }
  }

  /** `a` is `b` with only the converter bindings possibly changed. */
  predicate SameButConvert(a: seq<FieldMetadata>, b: seq<FieldMetadata>) {
    |a| == |b| && forall j :: 0 <= j < |a| ==> a[j] == b[j].(convert := a[j].convert)
  }

  /** A call rewrites only converter bindings: every field keeps its name,
      type, visibility, mapper flag and details. */
  lemma SaveInfoKeepsFields(d: Direction, cm: ClassMetadata, k: nat, possible: seq<ImportNode>,
                            load: seq<string> -> ParsedModule)
    requires k < |cm.fields| && cm.fields[k].convert.Some?
    ensures SameButConvert(SaveInfo(d, cm, k, possible, load).meta.fields, cm.fields)
  {
    var b := cm.fields[k].convert.value.Get(d);
    if b.None? || b.value.func == "" {
      assert SameButConvert(cm.fields, cm.fields);
    } else {
      match FindImport(possible, b.value.func)
      case None => WithBindingKeepsFields(cm, k, d, ClassifyLiteral(b.value));
      case Some(i) => SaveImportedKeepsFields(d, cm, k, possible, load(possible[i].absPathNode));
    }
  }

  lemma WithBindingKeepsFields(cm: ClassMetadata, k: nat, d: Direction, b: Binding)
    requires k < |cm.fields| && cm.fields[k].convert.Some?
    ensures SameButConvert(WithBinding(cm, k, d, b).fields, cm.fields)
  {
    var r := WithBinding(cm, k, d, b);
    forall j | 0 <= j < |r.fields|
      ensures r.fields[j] == cm.fields[j].(convert := r.fields[j].convert)
    {
      if j != k {
        assert r.fields[j] == cm.fields[j];
      }
    }
  }

  lemma SaveImportedKeepsFields(d: Direction, cm: ClassMetadata, k: nat, possible: seq<ImportNode>, m: ParsedModule)
    requires k < |cm.fields| && cm.fields[k].convert.Some? && cm.fields[k].convert.value.Get(d).Some?
    ensures SameButConvert(SaveImported(d, cm, k, possible, m).meta.fields, cm.fields)
  {
    var b := cm.fields[k].convert.value.Get(d).value;
    match FindFunction(m.functions, b.func)
    case None =>
      assert SameButConvert(cm.fields, cm.fields);
    case Some(j) =>
      var f := m.functions[j];
      var cm1 := WithBinding(cm, k, d, b.(isAsync := f.isAsync, isPrimitive := false));
      WithBindingKeepsFields(cm, k, d, b.(isAsync := f.isAsync, isPrimitive := false));
      var cm2 := if cm1.isAsync.Get(d) then cm1 else cm1.(isAsync := cm1.isAsync.Set(d, f.isAsync));
      assert cm2.fields == cm1.fields;
      match ContextCandidate(f)
      case None =>
      case Some(c) =>
        assert SaveContext(d, cm2, c, possible, m).meta.fields == cm2.fields;
  }

  lemma SameButConvertTrans(a: seq<FieldMetadata>, b: seq<FieldMetadata>, c: seq<FieldMetadata>)
    requires SameButConvert(a, b) && SameButConvert(b, c)
    ensures SameButConvert(a, c)
  {
  }

  /** So does resolving every field. */
  lemma {:induction false} ResolveFieldsKeepsFields(cm: ClassMetadata, k: nat, possible: seq<ImportNode>,
                                                    load: seq<string> -> ParsedModule)
    requires k <= |cm.fields|
    ensures SameButConvert(ResolveFields(cm, k, possible, load).meta.fields, cm.fields)
    decreases |cm.fields| - k
  {
    if k < |cm.fields| {
      if cm.fields[k].convert.None? {
        assert ResolveFields(cm, k, possible, load) == ResolveFields(cm, k + 1, possible, load);
        ResolveFieldsKeepsFields(cm, k + 1, possible, load);
      } else {
        var r1 := SaveInfo(ToView, cm, k, possible, load);
        SaveInfoKeepsFields(ToView, cm, k, possible, load);
        if r1.outcome.Pass? {
          var r2 := SaveInfo(FromView, r1.meta, k, r1.imports, load);
          SaveInfoKeepsFields(FromView, r1.meta, k, r1.imports, load);
          SameButConvertTrans(r2.meta.fields, r1.meta.fields, cm.fields);
          if r2.outcome.Pass? {
            var rest := ResolveFields(r2.meta, k + 1, r2.imports, load);
            assert ResolveFields(cm, k, possible, load) == rest;
            ResolveFieldsKeepsFields(r2.meta, k + 1, r2.imports, load);
            SameButConvertTrans(rest.meta.fields, r2.meta.fields, cm.fields);
          } else {
            assert ResolveFields(cm, k, possible, load) == r2;
          }
        } else {
          assert ResolveFields(cm, k, possible, load) == r1;
        }
      }
    } else {
      assert ResolveFields(cm, k, possible, load).meta == cm;
      assert SameButConvert(cm.fields, cm.fields);
    }
  }

  // ---------------------------------------------------------------------
  // The context type of a whole class is the fold of `Unify`

  /** The context candidate that direction `d`'s converter of field `k`
      offers: the typed second parameter of the function it names, when the
      function is found through an import. At most one. */
  function StepCandidate(d: Direction, cm: ClassMetadata, k: nat, possible: seq<ImportNode>,
                         load: seq<string> -> ParsedModule): seq<Candidate>
    requires k < |cm.fields| && cm.fields[k].convert.Some?
  {
    var b := cm.fields[k].convert.value.Get(d);
    if b.None? || b.value.func == "" then []
    else match FindImport(possible, b.value.func)
      case None => []
      case Some(i) => ImportedCandidate(b.value.func, load(possible[i].absPathNode))
  }

  /** The same, once the converter's module `m` is parsed. */
  function ImportedCandidate(func: string, m: ParsedModule): seq<Candidate> {
    match FindFunction(m.functions, func)
    case None => []
    case Some(j) =>
      match ContextCandidate(m.functions[j])
      case None => []
      case Some(c) => [c]
  }

  /** The candidates direction `e` meets while the class's fields are
      resolved from field `k` on, in the order the source visits them, up
      to the first throw. */
  function ContextCandidates(cm: ClassMetadata, k: nat, possible: seq<ImportNode>,
                             load: seq<string> -> ParsedModule, e: Direction): seq<Candidate>
    requires k <= |cm.fields|
    decreases |cm.fields| - k
  {
    if k == |cm.fields| then []
    else if cm.fields[k].convert.None? then ContextCandidates(cm, k + 1, possible, load, e)
    else
      var r1 := SaveInfo(ToView, cm, k, possible, load);
      var c1 := SeenBy(e, ToView, cm, k, possible, load);
      if r1.outcome.Fail? then c1
      else
        var r2 := SaveInfo(FromView, r1.meta, k, r1.imports, load);
        var c2 := SeenBy(e, FromView, r1.meta, k, r1.imports, load);
        if r2.outcome.Fail? then c1 + c2 else c1 + c2 + ContextCandidates(r2.meta, k + 1, r2.imports, load, e)
  }

  /** The candidates direction `e` meets in the call for direction `d`:
      that call's candidate when `d` is `e`, none otherwise. */
  function SeenBy(e: Direction, d: Direction, cm: ClassMetadata, k: nat, possible: seq<ImportNode>,
                  load: seq<string> -> ParsedModule): seq<Candidate>
    requires k < |cm.fields| && cm.fields[k].convert.Some?
  {
    if e == d then StepCandidate(d, cm, k, possible, load) else []
  }

  /** One call, seen from direction `e`: the candidates `e` meets there
      unify to the context type `e` has after the call, and fail only when
      the call throws a conflict. */
  lemma SeenStep(e: Direction, d: Direction, cm: ClassMetadata, k: nat, possible: seq<ImportNode>,
                 load: seq<string> -> ParsedModule)
    requires k < |cm.fields| && cm.fields[k].convert.Some?
    ensures var r := SaveInfo(d, cm, k, possible, load);
      var u := UnifyAll(cm.contextType.Get(e), SeenBy(e, d, cm, k, possible, load));
      && (r.outcome.Pass? ==> u == Ok(r.meta.contextType.Get(e)))
      && (u.Err? ==> r.outcome.Fail? && r.outcome.error.ContextTypeConflict?)
      && (e == d ==> (u.Err? <==> r.outcome.Fail? && r.outcome.error.ContextTypeConflict?))
  {
    StepContext(d, cm, k, possible, load);
    if e != d {
      assert e == Other(d);
    }
  }

  lemma {:induction false} UnifyAllAppend(info: ContextTypeInfo, a: seq<Candidate>, b: seq<Candidate>)
    ensures UnifyAll(info, a + b) ==
      match UnifyAll(info, a)
      case Err(e) => Err(e)
      case Ok(i) => UnifyAll(i, b)
    decreases |b|
  {
    if b == [] {
      assert a + b == a;
    } else {
      var b' := b[..|b| - 1];
      assert (a + b)[..|a + b| - 1] == a + b';
      assert (a + b)[|a + b| - 1] == b[|b| - 1];
      UnifyAllAppend(info, a, b');
    }
  }

  /** Two folds that succeed one after the other are one fold over both
      candidate lists. */
  lemma UnifyAllChain(info: ContextTypeInfo, a: seq<Candidate>, mid: ContextTypeInfo, b: seq<Candidate>,
                      last: ContextTypeInfo)
    requires UnifyAll(info, a) == Ok(mid) && UnifyAll(mid, b) == Ok(last)
    ensures UnifyAll(info, a + b) == Ok(last)
  {
    UnifyAllAppend(info, a, b);
  }

  /** One call of `saveInfoAboutTransformer` unifies its candidate, if
      any, into direction `d`'s context type and leaves the other direction
      alone; it throws a conflict exactly when that unification fails. */
  lemma StepContext(d: Direction, cm: ClassMetadata, k: nat, possible: seq<ImportNode>,
                    load: seq<string> -> ParsedModule)
    requires k < |cm.fields| && cm.fields[k].convert.Some?
    ensures var r := SaveInfo(d, cm, k, possible, load);
      var u := UnifyAll(cm.contextType.Get(d), StepCandidate(d, cm, k, possible, load));
      && r.meta.contextType.Get(Other(d)) == cm.contextType.Get(Other(d))
      && (r.outcome.Pass? ==> u == Ok(r.meta.contextType.Get(d)))
      && (u.Err? <==> r.outcome.Fail? && r.outcome.error.ContextTypeConflict?)
  {
    var b := cm.fields[k].convert.value.Get(d);
    if b.Some? && b.value.func != "" {
      match FindImport(possible, b.value.func)
      case None =>
      case Some(i) =>
        var m := load(possible[i].absPathNode);
        assert SaveInfo(d, cm, k, possible, load) == SaveImported(d, cm, k, possible, m);
        ImportedContext(d, cm, k, possible, m);
    }
  }

  lemma ImportedContext(d: Direction, cm: ClassMetadata, k: nat, possible: seq<ImportNode>, m: ParsedModule)
    requires k < |cm.fields| && cm.fields[k].convert.Some? && cm.fields[k].convert.value.Get(d).Some?
    ensures var r := SaveImported(d, cm, k, possible, m);
      var u := UnifyAll(cm.contextType.Get(d), ImportedCandidate(cm.fields[k].convert.value.Get(d).value.func, m));
      && r.meta.contextType.Get(Other(d)) == cm.contextType.Get(Other(d))
      && (r.outcome.Pass? ==> u == Ok(r.meta.contextType.Get(d)))
      && (u.Err? <==> r.outcome.Fail? && r.outcome.error.ContextTypeConflict?)
  {
    var b := cm.fields[k].convert.value.Get(d).value;
    match FindFunction(m.functions, b.func)
    case None =>
    case Some(j) =>
      var f := m.functions[j];
      var cm1 := WithBinding(cm, k, d, b.(isAsync := f.isAsync, isPrimitive := false));
      var cm2 := if cm1.isAsync.Get(d) then cm1 else cm1.(isAsync := cm1.isAsync.Set(d, f.isAsync));
      assert cm2.contextType == cm.contextType;
      match ContextCandidate(f)
      case None =>
      case Some(c) =>
        assert SaveImported(d, cm, k, possible, m) == SaveContext(d, cm2, c, possible, m);
        assert ImportedCandidate(b.func, m) == [c];
        assert [c][..0] == [];
        ContextStep(d, cm2, c, possible, m);
  }

  lemma ContextStep(d: Direction, cm: ClassMetadata, c: Candidate, possible: seq<ImportNode>, m: ParsedModule)
    ensures var r := SaveContext(d, cm, c, possible, m);
      && r.meta.contextType.Get(Other(d)) == cm.contextType.Get(Other(d))
      && (r.outcome.Pass? ==> Unify(cm.contextType.Get(d), c) == Ok(r.meta.contextType.Get(d)))
      && (Unify(cm.contextType.Get(d), c).Err? <==> r.outcome.Fail? && r.outcome.error.ContextTypeConflict?)
  {
  }

  /** Resolving a class's fields leaves each direction's context type at
      the left-to-right unification of the candidates that direction met,
      starting from the value it had. */
  lemma {:induction false} ResolveContext(cm: ClassMetadata, k: nat, possible: seq<ImportNode>,
                                          load: seq<string> -> ParsedModule, e: Direction)
    requires k <= |cm.fields|
    ensures var r := ResolveFields(cm, k, possible, load);
      r.outcome.Pass? ==>
        UnifyAll(cm.contextType.Get(e), ContextCandidates(cm, k, possible, load, e)) == Ok(r.meta.contextType.Get(e))
    decreases |cm.fields| - k
  {
    if k < |cm.fields| {
      if cm.fields[k].convert.None? {
        ResolveContext(cm, k + 1, possible, load, e);
      } else {
        var r1 := SaveInfo(ToView, cm, k, possible, load);
        if r1.outcome.Pass? {
          SeenStep(e, ToView, cm, k, possible, load);
          var r2 := SaveInfo(FromView, r1.meta, k, r1.imports, load);
          if r2.outcome.Pass? {
            SeenStep(e, FromView, r1.meta, k, r1.imports, load);
            var c1 := SeenBy(e, ToView, cm, k, possible, load);
            var c2 := SeenBy(e, FromView, r1.meta, k, r1.imports, load);
            var rest := ContextCandidates(r2.meta, k + 1, r2.imports, load, e);
            ResolveContext(r2.meta, k + 1, r2.imports, load, e);
            var r := ResolveFields(r2.meta, k + 1, r2.imports, load);
            if r.outcome.Pass? {
              UnifyAllChain(cm.contextType.Get(e), c1, r1.meta.contextType.Get(e), c2, r2.meta.contextType.Get(e));
              UnifyAllChain(cm.contextType.Get(e), c1 + c2, r2.meta.contextType.Get(e), rest, r.meta.contextType.Get(e));
            }
          }
        }
      }
    }
  }

  /** A fold of those candidates that fails means resolution threw a
      context conflict. */
  lemma {:induction false} FoldConflict(cm: ClassMetadata, k: nat, possible: seq<ImportNode>,
                                        load: seq<string> -> ParsedModule, e: Direction)
    requires k <= |cm.fields|
    ensures var r := ResolveFields(cm, k, possible, load);
      UnifyAll(cm.contextType.Get(e), ContextCandidates(cm, k, possible, load, e)).Err? ==>
        r.outcome.Fail? && r.outcome.error.ContextTypeConflict?
    decreases |cm.fields| - k
  {
    if k < |cm.fields| {
      if cm.fields[k].convert.None? {
        FoldConflict(cm, k + 1, possible, load, e);
      } else {
        var r1 := SaveInfo(ToView, cm, k, possible, load);
        SeenStep(e, ToView, cm, k, possible, load);
        if r1.outcome.Pass? {
          var r2 := SaveInfo(FromView, r1.meta, k, r1.imports, load);
          SeenStep(e, FromView, r1.meta, k, r1.imports, load);
          var c1 := SeenBy(e, ToView, cm, k, possible, load);
          var c2 := SeenBy(e, FromView, r1.meta, k, r1.imports, load);
          UnifyAllAppend(cm.contextType.Get(e), c1, c2);
          if r2.outcome.Pass? {
            var rest := ContextCandidates(r2.meta, k + 1, r2.imports, load, e);
            UnifyAllAppend(cm.contextType.Get(e), c1 + c2, rest);
            FoldConflict(r2.meta, k + 1, r2.imports, load, e);
          }
        }
      }
    }
  }

  /** Conversely, a context conflict during resolution is a failed fold in
      one of the two directions. */
  lemma {:induction false} ResolveConflict(cm: ClassMetadata, k: nat, possible: seq<ImportNode>,
                                           load: seq<string> -> ParsedModule)
    requires k <= |cm.fields|
    ensures var r := ResolveFields(cm, k, possible, load);
      r.outcome.Fail? && r.outcome.error.ContextTypeConflict? ==>
        UnifyAll(cm.contextType.Get(ToView), ContextCandidates(cm, k, possible, load, ToView)).Err?
        || UnifyAll(cm.contextType.Get(FromView), ContextCandidates(cm, k, possible, load, FromView)).Err?
    decreases |cm.fields| - k
  {
    if k < |cm.fields| {
      if cm.fields[k].convert.None? {
        ResolveConflict(cm, k + 1, possible, load);
      } else {
        var r1 := SaveInfo(ToView, cm, k, possible, load);
        SeenStep(ToView, ToView, cm, k, possible, load);
        SeenStep(FromView, ToView, cm, k, possible, load);
        if r1.outcome.Pass? {
          var r2 := SaveInfo(FromView, r1.meta, k, r1.imports, load);
          SeenStep(ToView, FromView, r1.meta, k, r1.imports, load);
          SeenStep(FromView, FromView, r1.meta, k, r1.imports, load);
          var t := SeenBy(ToView, ToView, cm, k, possible, load) + SeenBy(ToView, FromView, r1.meta, k, r1.imports, load);
          var f := SeenBy(FromView, ToView, cm, k, possible, load) + SeenBy(FromView, FromView, r1.meta, k, r1.imports, load);
          UnifyAllAppend(cm.contextType.Get(ToView), SeenBy(ToView, ToView, cm, k, possible, load),
                         SeenBy(ToView, FromView, r1.meta, k, r1.imports, load));
          UnifyAllAppend(cm.contextType.Get(FromView), SeenBy(FromView, ToView, cm, k, possible, load),
                         SeenBy(FromView, FromView, r1.meta, k, r1.imports, load));
          if r2.outcome.Pass? {
            ResolveConflict(r2.meta, k + 1, r2.imports, load);
            UnifyAllAppend(cm.contextType.Get(ToView), t, ContextCandidates(r2.meta, k + 1, r2.imports, load, ToView));
            UnifyAllAppend(cm.contextType.Get(FromView), f, ContextCandidates(r2.meta, k + 1, r2.imports, load, FromView));
          }
        }
      }
    }
  }

  // ---------------------------------------------------------------------
  // The class meta object that `saveInfoAboutTransformer` updates

  /** A `ClassMetadata` object while the generator is still filling it in. */
  class ClassMeta {
    var name: string
    var baseName: string
    var baseNamePath: string
    var fields: seq<FieldMetadata>
    var generateView: bool
    var needMapper: bool
    var contextType: PerDirection<ContextTypeInfo>
    var contextTypeFields: PerDirection<seq<string>>
    var isAsync: PerDirection<bool>

    /** The object's current contents as a value. */
    function Value(): ClassMetadata
      reads this
    {
      ClassMetadata(name, baseName, baseNamePath, fields, generateView, needMapper,
                    contextType, contextTypeFields, isAsync)
    }

    /** `createClassMeta(model)`; its result is an input of the model. */
    constructor (init: ClassMetadata)
      ensures Value() == init
    {
      name := init.name;
      baseName := init.baseName;
      baseNamePath := init.baseNamePath;
      fields := init.fields;
      generateView := init.generateView;
      needMapper := init.needMapper;
      contextType := init.contextType;
      contextTypeFields := init.contextTypeFields;
      isAsync := init.isAsync;
    }

    /** `cm.baseName = cls.name; cm.baseNamePath = file`. */
    method SetOrigin(className: string, file: string)
      modifies this
      ensures Value() == old(Value()).(baseName := className, baseNamePath := file)
    {
      baseName := className;
      baseNamePath := file;
    }

    /** `cm.fields.push(fieldMetadata)`. */
    method AddField(f: FieldMetadata)
      modifies this
      ensures Value() == old(Value()).(fields := old(fields) + [f])
    {
      fields := fields + [f];
    }

    /** `saveInfoAboutTransformer(d, fields[k].fieldConvertFunction,
        possible, this)`: the updated list of possible imports is returned. */
    method SaveInfoAboutTransformer(d: Direction, k: nat, possible: seq<ImportNode>,
                                    load: seq<string> -> ParsedModule)
      returns (outcome: Outcome, imports: seq<ImportNode>)
      requires k < |fields| && fields[k].convert.Some?
      modifies this
      ensures SaveResult(Value(), imports, outcome) == SaveInfo(d, old(Value()), k, possible, load)
    {
      imports, outcome := possible, Pass;
      var t := fields[k].convert.value;
      var b := t.Get(d);
      if b.None? || b.value.func == "" {
        return;
      }
      var found := FindImport(possible, b.value.func);
      if found.None? {
        fields := fields[k := fields[k].(convert := Some(t.Set(d, Some(ClassifyLiteral(b.value)))))];
        return;
      }
      outcome, imports := SaveImportedFrom(d, k, possible, load(possible[found.value].absPathNode));
    }

    /** Lines 150-191: the converter's module `m` has been read and parsed. */
    method SaveImportedFrom(d: Direction, k: nat, possible: seq<ImportNode>, m: ParsedModule)
      returns (outcome: Outcome, imports: seq<ImportNode>)
      requires k < |fields| && fields[k].convert.Some? && fields[k].convert.value.Get(d).Some?
      modifies this
      ensures SaveResult(Value(), imports, outcome) == SaveImported(d, old(Value()), k, possible, m)
    {
      imports, outcome := possible, Pass;
      var t := fields[k].convert.value;
      var b := t.Get(d).value;
      var target := FindFunction(m.functions, b.func);
      if target.None? {
        outcome := Fail(TransformerFunctionNotFound(b.func));
        return;
      }
      var f := m.functions[target.value];
      fields := fields[k := fields[k].(convert := Some(t.Set(d, Some(b.(isAsync := f.isAsync, isPrimitive := false)))))];
      if !isAsync.Get(d) {
        isAsync := isAsync.Set(d, f.isAsync);
      }
      var c := ContextCandidate(f);
      if c.Some? {
        outcome, imports := SaveContextFrom(d, c.value, possible, m);
      }
    }

    /** Lines 162-191: the converter declares a context type `c`. */
    method SaveContextFrom(d: Direction, c: Candidate, possible: seq<ImportNode>, m: ParsedModule)
      returns (outcome: Outcome, imports: seq<ImportNode>)
      modifies this
      ensures SaveResult(Value(), imports, outcome) == SaveContext(d, old(Value()), c, possible, m)
    {
      imports, outcome := possible, Pass;
      var u := Unify(contextType.Get(d), c);
      if u.Err? {
        outcome := Fail(u.error);
        return;
      }
      contextType := contextType.Set(d, u.value);
      AddContextFields(d, m.functions);
      if IsPrimitiveType(c.typeName) {
        return;
      }
      var ci := FindImport(m.imports, c.typeName);
      if ci.None? {
        outcome := Fail(ContextTypeImportNotFound(c.typeName));
        return;
      }
      imports := possible + [ImportNode([c.typeName], m.imports[ci.value].absPathNode, false)];
    }

    /** Lines 169-177: every field whose converter for `d` names a function
        of `functions` with a second parameter is pushed onto
        `contextTypeFields[d]`, in field order. */
    method AddContextFields(d: Direction, functions: seq<FunctionDecl>)
      modifies this
      ensures Value() == old(Value()).(contextTypeFields := old(contextTypeFields).Set(d,
                           old(contextTypeFields).Get(d) + FieldsWithContext(fields, d, functions)))
    {
      ghost var saved := contextTypeFields;
      var fs := fields;
      var names := contextTypeFields.Get(d);
      var i := 0;
      assert fs[..0] == [];
      while i < |fs|
        invariant 0 <= i <= |fs|
        invariant names == saved.Get(d) + FieldsWithContext(fs[..i], d, functions)
      {
        if HasContextParam(fs[i], d, functions) {
          names := names + [fs[i].name];
        }
        assert fs[..i + 1][..i] == fs[..i];
        i := i + 1;
      }
      assert fs[..i] == fs;
      contextTypeFields := contextTypeFields.Set(d, names);
    }

    /** `createMetadatas` lines 58-64 on this class meta. */
    method ResolveTransformers(possible: seq<ImportNode>, load: seq<string> -> ParsedModule)
      returns (outcome: Outcome, imports: seq<ImportNode>)
      modifies this
      ensures SaveResult(Value(), imports, outcome) == ResolveFields(old(Value()), 0, possible, load)
    {
      imports, outcome := possible, Pass;
      var k := 0;
      while k < |fields|
        invariant 0 <= k <= |fields|
        invariant outcome == Pass
        invariant ResolveFields(old(Value()), 0, possible, load) == ResolveFields(Value(), k, imports, load)
        decreases |fields| - k
      {
        if fields[k].convert.Some? {
          ghost var v0, i0 := Value(), imports;
          outcome, imports := SaveInfoAboutTransformer(ToView, k, imports, load);
          if outcome.Fail? {
            return;
          }
          outcome, imports := SaveInfoAboutTransformer(FromView, k, imports, load);
          assert ResolveFields(v0, k, i0, load) ==
            if outcome.Fail? then SaveResult(Value(), imports, outcome)
            else ResolveFields(Value(), k + 1, imports, load);
          if outcome.Fail? {
            return;
          }
        }
        k := k + 1;
      }
    }
  }
}
