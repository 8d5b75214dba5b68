# grunt-generate-view-model: the metadata and import pipeline, in Dafny

grunt-generate-view-model is a build-time generator. It reads TypeScript
classes marked with `@GenerateView` and writes view-model classes and
mapper files for them. This project models the core of
`src/tasks/createViewModels.ts`, with the parser, the template renderer
and the file system moved to the boundary:

- **Transformer resolution** (`saveInfoAboutTransformer`). A field
  converter either names a function of an imported module or is a literal.
  For an imported function, the model copies the function's `async` flag
  into a per-direction class flag that never goes back to false. It also
  unifies the type of the function's second parameter into the class's
  context type, with an accept-or-throw rule, and may append one possible
  import for that type. Module `Transformers`; the class `ClassMeta` is the
  class meta object those calls update in place.
- **Output records and grouping** (`createMetadatas`,
  `FillFileMetadataArray`). Every directive appends exactly one record.
  Grouping pushes each resolved class meta onto every record so far whose
  file name contains `downFirstLetter(name).ts`, then recomputes that
  record's imports. Module `Metadata`; the class `MetadataBuilder` is the
  `generationFiles` accumulator.
- **Import resolution** (`getInfoFromClassField`, `makeCorrectImports`,
  `filterTransformerWhichAlreadyExistInMapper`). The type names a class
  uses are matched, by index, against the clauses of the possible imports.
  The matched imports become import lines with relative paths. The lines
  are de-duplicated by their text and then merged by their path. Module
  `Imports`.
- **The write decision** of `createFiles`. Module `Emit`.
- **Support modules.** `Text` has the string operations: `split`/`join`,
  `trim`, `replace`, `downFirstLetter`, and the `./` prefix. `Sequences`
  has order-preserving de-duplication (`unique`, `new Set`, "keep the
  first with this text") and flattening. `Model` has the records.

Each imperative part is a method with loops. Each method is proved equal
to a specification function, and the lemmas state what the generator
promises about those functions. Errors the source throws become `Err` or
`Fail` values.

## Model

| member | source | states |
|---|---|---|
| Text.Split | src/tasks/createViewModels.ts:343 | `split` on one character gives at least one piece, and no piece holds the separator |
| Text.SplitJoin | src/tasks/createViewModels.ts:299 | splitting loses nothing: joining the pieces of `split(c)` back with `c` gives the original text |
| Text.JoinSplit | src/tasks/createViewModels.ts:343-345 | splitting a join on a separator that no part holds gives back the parts |
| Text.StripAllAbsent | src/tasks/createViewModels.ts:283 | removing every `.ts` from a name without `.ts` leaves it unchanged |
| Text.StripAllInsideDirectory | src/tasks/createViewModels.ts:283 | `split(".ts").join("")` removes every `.ts`, not only the extension: `a.ts/b.ts` becomes `a/b` |
| Text.ReplaceAllRemoves | src/tasks/createViewModels.ts:287 | after `split(c).join(w)` with `w` free of `c`, no `c` is left |
| Text.ReplaceAllAbsent | src/tasks/createViewModels.ts:287 | a text without `c` is unchanged by `split(c).join(w)` |
| Text.ReplaceFirst | src/tasks/createViewModels.ts:343 | `replace("{", "")` removes one character when the text holds it, and otherwise leaves the text unchanged |
| Text.ReplaceFirstSkips | src/tasks/createViewModels.ts:343 | only the first occurrence is removed: a prefix without the character is kept whole |
| Text.Trim | src/tasks/createViewModels.ts:101 | the trimmed text neither starts nor ends with whitespace |
| Text.TrimEmpty | src/tasks/createViewModels.ts:101 | a text trims to the empty text iff every character of it is whitespace |
| Text.TrimInfix | src/tasks/createViewModels.ts:101 | the trimmed text is one contiguous piece of the text, and only whitespace is cut off before and after it |
| Text.TrimPadded | src/tasks/createViewModels.ts:343 | trimming a text padded with whitespace on both sides gives the text |
| Text.DownFirstLetter | src/tasks/createViewModels.ts:207 | same length; the first character is lower-cased and the rest is unchanged |
| Text.DownFirstLetterKeepsOut | src/tasks/createViewModels.ts:301 | lowering the first letter brings in no character other than a lower-case letter, so no `\` |
| Text.RootIdentifierIsPrefix | src/tasks/createViewModels.ts:224 | `split(".")[0]` is a prefix with no dot, and is the whole text when the text has no dot |
| Text.EnsureDotSlash | src/tasks/createViewModels.ts:288-290 | the path contains `./` afterwards; a path that already did is unchanged, any other gets `./` in front |
| Sequences.DistinctByKeys | src/tasks/createViewModels.ts:312-319 | de-duplication loses no key and invents none |
| Sequences.DistinctByNoDuplicates | src/tasks/createViewModels.ts:312-319 | no two survivors share a key |
| Sequences.DistinctByIsFirsts | src/tasks/createViewModels.ts:312-319 | the survivors are exactly the first occurrences, in input order |
| Sequences.DistinctByElements | src/tasks/createViewModels.ts:313-317 | every survivor is an input element |
| Sequences.UniqueProperties | src/tasks/createViewModels.ts:243-245 | `unique` and a `Set` read in insertion order keep exactly the input's values, each once |
| Sequences.FlattenMembers | src/tasks/createViewModels.ts:248-251 | a value is in the concatenation iff it is in one of the pieces |
| Model.PerDirection.Set | src/tasks/createViewModels.ts:167-168 | writing one direction sets it and leaves the other direction as it was |
| Transformers.FindImport | src/tasks/createViewModels.ts:135 | the first import whose clauses hold the name; none only when no import holds it |
| Transformers.FindFunction | src/tasks/createViewModels.ts:153 | the first declared function with the name; none only when no function has it |
| Transformers.ContextCandidate | src/tasks/createViewModels.ts:160-165 | a candidate exists iff the function has a second parameter with a type, and it carries that type and that parameter's `mandatory` |
| Transformers.WithBinding | src/tasks/createViewModels.ts:154 | only field `k`'s binding for direction `d` changes, and it becomes the given binding |
| Transformers.SaveInfo | src/tasks/createViewModels.ts:126-199 | a call changes only the fields, context type, context fields and async flags, and keeps the number of fields and which fields have a converter |
| Transformers.SaveImported | src/tasks/createViewModels.ts:150-191 | the same frame, for a converter resolved through an import |
| Transformers.SaveContext | src/tasks/createViewModels.ts:162-191 | after a context candidate, only the context type and the context fields change |
| Transformers.LiteralBinding | src/tasks/createViewModels.ts:193-198 | a converter no import names becomes primitive; it is a string literal iff it is not `null`, not `undefined` and not numeric; nothing else changes and nothing throws |
| Transformers.ImportedBinding | src/tasks/createViewModels.ts:153-159 | an imported converter takes the declaration's `isAsync` and is not primitive; the class flag for `d` becomes `old || isAsync`, the other direction's flag is untouched |
| Transformers.SaveImportedBinding | src/tasks/createViewModels.ts:153-159 | the same, once the converter's module is parsed |
| Transformers.AsyncFlagsMonotone | src/tasks/createViewModels.ts:155-158 | an async flag that is true stays true |
| Transformers.SaveImportedKeepsAsync | src/tasks/createViewModels.ts:155-158 | the same, once the converter's module is parsed |
| Transformers.NoContextParamNoChange | src/tasks/createViewModels.ts:160-165 | without a typed second parameter, the context type, the context fields and the import list are unchanged, and the call does not throw |
| Transformers.SaveInfoFailures | src/tasks/createViewModels.ts:153-190 | a call throws only when the function is missing from its module (and then nothing changed), on a context conflict, or when a non-primitive context type has no import; the import list gains at most one single-clause import that is not a package |
| Transformers.ImportedFailures | src/tasks/createViewModels.ts:150-191 | the same, once the converter's module is parsed |
| Transformers.MissingFunctionThrows | src/tasks/createViewModels.ts:150-154 | conversely, a converter whose import is found but whose module has no function of that name throws "function not found", leaving the class meta and the import list as they were |
| Transformers.SaveInfoKeepsFields | src/tasks/createViewModels.ts:126-199 | a call changes only converter bindings: every field keeps its name, type, flags and details, and the field count is kept |
| Transformers.ResolveFieldsKeepsFields | src/tasks/createViewModels.ts:58-64 | resolving every field changes only converter bindings, in the same sense |
| Transformers.ContextImportAppended | src/tasks/createViewModels.ts:166-190 | an accepted context type is stored and its fields are recorded; a primitive type appends nothing; otherwise exactly `{clauses: [type], isNodeModule: false}` is appended, or the call throws when the module has no import for the type |
| Transformers.ContextConflictThrows | src/tasks/createViewModels.ts:178-180 | a rejected candidate throws the conflict error and changes nothing |
| Transformers.UnifyAcceptance | src/tasks/createViewModels.ts:166-180 | a candidate is accepted iff the value is unset, equal to it, or the candidate is `any`; then the value is the candidate and `mandatory` is `old || new`; otherwise the conflict error |
| Transformers.AnyThenConcreteConflicts | src/tasks/createViewModels.ts:166 | once the value is `any`, a concrete candidate is rejected |
| Transformers.UnifyAllFromUnset | src/tasks/createViewModels.ts:166-168 | from an unset value, a sequence of candidates unifies iff each one is `any` or repeats the one before it; the result is the last type, mandatory iff any candidate was |
| Transformers.UnifyIsOrderDependent | src/tasks/createViewModels.ts:166 | `T, any` unifies to `any`, while `T, any, T` throws |
| Transformers.ResolveFields | src/tasks/createViewModels.ts:58-64 | resolving every converter field keeps the number of fields |
| Transformers.ResolveFieldsMonotone | src/tasks/createViewModels.ts:58-64 | resolution only appends possible imports, never clears an async flag, and keeps the class's name, origin (`baseName`, `baseNamePath`), `generateView` and `needMapper` |
| Transformers.UnifyAllAppend | src/tasks/createViewModels.ts:60-64 | unifying the candidates of two runs is unifying those of the first, then those of the second from its result |
| Transformers.ContextStep | src/tasks/createViewModels.ts:166-191 | once a candidate is found, the direction's context type becomes its `Unify` with the candidate, the other direction keeps its own, and a conflict is thrown iff `Unify` fails |
| Transformers.ImportedContext | src/tasks/createViewModels.ts:150-191 | the same for the converter's parsed module: a function without a typed second parameter contributes no candidate |
| Transformers.StepContext | src/tasks/createViewModels.ts:126-199 | one call folds its candidate, if any, into direction `d`'s context type, leaves the other direction's alone, and throws a conflict iff that fold fails |
| Transformers.SeenStep | src/tasks/createViewModels.ts:62-63 | the same fact for one call, read from the side of either direction |
| Transformers.ResolveContext | src/tasks/createViewModels.ts:58-64 | after every field is resolved, each direction's context type is the left-to-right `Unify` fold of the candidates that direction met, from the value it had before |
| Transformers.FoldConflict | src/tasks/createViewModels.ts:58-64 | when that fold fails for a direction, resolution threw a context conflict |
| Transformers.ResolveConflict | src/tasks/createViewModels.ts:58-64 | when resolution throws a context conflict, the fold fails for one of the two directions |
| Transformers.ClassMeta.constructor | src/tasks/createViewModels.ts:45 | the object holds the given class meta |
| Transformers.ClassMeta.SetOrigin | src/tasks/createViewModels.ts:51-52 | sets `baseName` and `baseNamePath` and nothing else |
| Transformers.ClassMeta.AddField | src/tasks/createViewModels.ts:53-56 | appends one field meta and nothing else |
| Transformers.ClassMeta.SaveInfoAboutTransformer | src/tasks/createViewModels.ts:126-199 | the object, the import list and the outcome after the call are those of `SaveInfo` |
| Transformers.ClassMeta.SaveImportedFrom | src/tasks/createViewModels.ts:150-191 | the same for `SaveImported` |
| Transformers.ClassMeta.SaveContextFrom | src/tasks/createViewModels.ts:162-191 | the same for `SaveContext` |
| Transformers.ClassMeta.AddContextFields | src/tasks/createViewModels.ts:169-177 | appends to `contextTypeFields[d]` the names of the fields whose converter declares a second parameter, in field order; nothing else changes |
| Transformers.ClassMeta.ResolveTransformers | src/tasks/createViewModels.ts:58-64 | the object, the import list and the outcome are those of `ResolveFields` |
| Imports.FieldInfoMembers | src/tasks/createViewModels.ts:213-237 | a field adds the root identifier of each primitive converter direction of a visible field, and `<type>Mapper` when the field needs a generated mapper, visible or not, and nothing else |
| Imports.VisibleTypes | src/tasks/createViewModels.ts:243-245 | the types of exactly the fields the view does not ignore |
| Imports.InfoNames | src/tasks/createViewModels.ts:248-251 | the names all field infos add are those some field info adds |
| Imports.UsingTypesMembers | src/tasks/createViewModels.ts:243-251 | the names in use are the visible field types, each once and first, plus every field-info name |
| Imports.MapperNamesMembers | src/tasks/createViewModels.ts:247-260 | the mapper-only names are the field-info names plus each set, non-primitive context type |
| Imports.IndicesWith | src/tasks/createViewModels.ts:261-267 | the indices, ascending, of exactly the imports whose clauses hold the name |
| Imports.DropZero | src/tasks/createViewModels.ts:257 | `.filter(i => !!i)` keeps every index except 0 |
| Imports.TypeIndicesMembers | src/tasks/createViewModels.ts:269-277 | an index is pushed for the names in use iff its import holds one of them |
| Imports.SelectedIndicesMembers | src/tasks/createViewModels.ts:252-278 | an import is selected iff it holds the `toView` context type, or holds the `fromView` one and is not import 0, or holds a name in use; each index once |
| Imports.FirstImportLostForFromViewContext | src/tasks/createViewModels.ts:254-257 | an import reached only through the `fromView` context type is dropped when it is the first import, and kept at any other index |
| Imports.CollectIndices | src/tasks/createViewModels.ts:252-278 | the index loops compute the selected indices |
| Imports.NonzeroIndices | src/tasks/createViewModels.ts:254-257 | the `fromView` context loop computes the matching indices without 0 |
| Imports.Push | src/tasks/createViewModels.ts:261-267 | one `forEach` pass appends the matching indices, ascending |
| Imports.PushAll | src/tasks/createViewModels.ts:269-277 | one pass per name in use appends that name's matching indices |
| Imports.ViewPath | src/tasks/createViewModels.ts:282-291 | a package keeps its `/`-joined path; any other path contains `./` and holds no `\` |
| Imports.ViewPathPosix | src/tasks/createViewModels.ts:283-291 | for a non-package whose relative path holds no `\`, the path is that relative path from the directory of the view file (every `.ts` removed from its name), with `./` put in front only when it holds no `./` |
| Imports.MapperImportPath | src/tasks/createViewModels.ts:298-305 | a mapper path holds no `\`, and one that is not a package contains `./` |
| Imports.MapperImportPathPosix | src/tasks/createViewModels.ts:298-305 | when the relative path holds no `\`, the mapper path is the path relative to the mapper path, for a package too, with only its first character lowered, and `./` in front when it is not a package and holds no `./` |
| Imports.MapperImportPathParent | src/tasks/createViewModels.ts:299-302 | a relative path starting with `../` and holding no `\` is used unchanged: no letter is lowered |
| Imports.BuildImport | src/tasks/createViewModels.ts:280-309 | the line has the `{ a,b }` text of the clauses; it is a mapper line iff a clause is a mapper-only name, and then it takes the mapper path, else the view path; it throws iff it is a mapper line and the file has no mapper path |
| Imports.BuildAll | src/tasks/createViewModels.ts:279-310 | one line per selected index, in order, each the line of its import |
| Imports.BuildAllFails | src/tasks/createViewModels.ts:279-310 | building the lines throws iff the file has no mapper path and some selected import holds a mapper-only name, and then the error is `MapperPathMissing` for the file |
| Imports.SelectedInRange | src/tasks/createViewModels.ts:278-281 | every selected index names an existing import |
| Imports.PushedImports | src/tasks/createViewModels.ts:242-311 | the class loop only appends to the file's import lines |
| Imports.PushedImportsFails | src/tasks/createViewModels.ts:242-311 | the class loop throws iff the file has no mapper path and some class selects an import holding one of its mapper-only names, with that error |
| Imports.DedupByType | src/tasks/createViewModels.ts:312-319 | the loop keeps the first line of each type text, in order; no two survivors share a type text |
| Imports.FindPath | src/tasks/createViewModels.ts:338 | the first line with the path; none only when no line has it |
| Imports.MergeSamePath | src/tasks/createViewModels.ts:330-348 | the loop computes the path merge |
| Imports.MergedPaths | src/tasks/createViewModels.ts:330-348 | the merged paths are the input paths, each once, in first-occurrence order |
| Imports.MergedDistinctPaths | src/tasks/createViewModels.ts:330-348 | no two merged lines share a path, and a path survives iff it is in the input |
| Imports.MergedSurvivors | src/tasks/createViewModels.ts:338-345 | each merged line is the first input line with its path; its type text is its own when no later line has that path, else the one re-derived from the last such line |
| Imports.ReclauseTypeText | src/tasks/createViewModels.ts:343-345 | re-deriving the type text of a line of clauses gives the text of those clauses, each once |
| Imports.SamePathKeepsLaterClauses | src/tasks/createViewModels.ts:343-345 | `{ a }` then `{ b }` on one path merge into the first line with `{ b }` only: no union is taken |
| Imports.CorrectedImportsProperties | src/tasks/createViewModels.ts:241-322 | the step throws iff the file has no mapper path and one of its classes selects an import holding a mapper-only name, with that error; otherwise there is at most one line per path |
| Imports.MakeCorrectImports | src/tasks/createViewModels.ts:241-322 | the method computes the new import list of the file, or the error |
| Imports.PushClassImports | src/tasks/createViewModels.ts:242-311 | the class loop computes `PushedImports`: the file's import lines with each class's lines appended in class order, or the first error |
| Imports.BuildClassImports | src/tasks/createViewModels.ts:243-310 | the lines one class pushes |
| Imports.BuildEach | src/tasks/createViewModels.ts:279-310 | the loop over the selected indices computes `BuildAll`: one line per index in order, or the first error |
| Metadata.FileNameFor | src/tasks/createViewModels.ts:207 | a record's file name is never empty |
| Metadata.FileNameNamesModel | src/tasks/createViewModels.ts:207 | the file name starts with `filePath/` and contains `downFirstLetter(model).ts` |
| Metadata.Matching | src/tasks/createViewModels.ts:68-74 | a record gains exactly the class metas whose `downFirstLetter(name).ts` its file name contains |
| Metadata.OwnRecordGetsClass | src/tasks/createViewModels.ts:69-73 | a class meta named after a directive's model goes to that directive's record |
| Metadata.RegroupShape | src/tasks/createViewModels.ts:67-76 | grouping keeps the number of records, and the record at each position is the one `Attach` makes of the record that was there |
| Metadata.RegroupAt | src/tasks/createViewModels.ts:67-76 | the same fact for one given position |
| Metadata.AttachShape | src/tasks/createViewModels.ts:68-75 | a record gains its matching class metas after the ones it had, and only its classes and imports change |
| Metadata.RegroupNames | src/tasks/createViewModels.ts:67-76 | grouping keeps the file names |
| Metadata.ResolveViews | src/tasks/createViewModels.ts:43-65 | one resolved class meta per directive, in order: each keeps its directive's name, `generateView` and `needMapper`, has the class name and the source file as its origin and the directive's field metas followed by one per class field, each equal to its original except for the converter bindings resolution filled in; the possible imports only grow |
| Metadata.Named | src/tasks/createViewModels.ts:82 | exactly the records with a non-empty file name |
| Metadata.ClassStepNames | src/tasks/createViewModels.ts:36-76 | a class adds one record per directive, named after it, and renames none |
| Metadata.ClassesStepNames | src/tasks/createViewModels.ts:36-77 | the same over the classes of one file |
| Metadata.OneRecordPerDirective | src/tasks/createViewModels.ts:202-211 | the records' file names are the directives' file names, in order: records are never merged |
| Metadata.DirectiveNamesNonEmpty | src/tasks/createViewModels.ts:207 | no directive has an empty file name |
| Metadata.NamedKeepsAll | src/tasks/createViewModels.ts:82 | the filter keeps records that all have names |
| Metadata.FilterDropsNothing | src/tasks/createViewModels.ts:82 | the final filter never drops a record |
| Metadata.MetadataBuilder.constructor | src/tasks/createViewModels.ts:28 | the accumulator starts empty |
| Metadata.MetadataBuilder.FillFileMetadataArray | src/tasks/createViewModels.ts:202-211 | exactly one record is appended: the directive's file name, its mapper path, no classes, no imports |
| Metadata.MetadataBuilder.Group | src/tasks/createViewModels.ts:67-76 | the records after grouping, or the error, are those of `Regroup` |
| Metadata.MetadataBuilder.ProcessClass | src/tasks/createViewModels.ts:36-76 | the records and possible imports after one class are those of `ClassStep` |
| Metadata.MetadataBuilder.ProcessNext | src/tasks/createViewModels.ts:36-77 | one more class of the file processed |
| Metadata.MetadataBuilder.ProcessSource | src/tasks/createViewModels.ts:30-80 | the records after one source file are those of `SourceStep` |
| Metadata.RegroupAll | src/tasks/createViewModels.ts:67-76 | the loop over the records computes `Regroup` |
| Metadata.AttachTo | src/tasks/createViewModels.ts:68-75 | one record with its matching class metas pushed and its imports recomputed |
| Metadata.MatchingClasses | src/tasks/createViewModels.ts:68-74 | the loop over the class metas computes `Matching` |
| Metadata.ResolveViewsOf | src/tasks/createViewModels.ts:43-65 | the class meta objects, filled in and resolved in directive order, give `ResolveViews` |
| Metadata.CreateMetadatas | src/tasks/createViewModels.ts:27-83 | `createMetadatas` over parsed source files |
| Emit.Generated | src/tasks/createViewModels.ts:93 | exactly the classes with `generateView` set |
| Emit.Prepared | src/tasks/createViewModels.ts:92-97 | the copy keeps the record's name, base path and mapper path; without a mapper path its classes are the generated ones |
| Emit.FileActions | src/tasks/createViewModels.ts:99-121 | a record writes nothing iff its trimmed view is empty; the first write is the view text at the record's name; the mapper is written iff the view is and every prepared class needs a mapper |
| Emit.CreateFiles | src/tasks/createViewModels.ts:85-124 | the loop performs the writes of every record, in record order |
| Emit.CreateFile | src/tasks/createViewModels.ts:89-122 | the writes for one record |
| Emit.WritesAppend | src/tasks/createViewModels.ts:89 | records are handled independently: the writes of two lists are the writes of each, in turn |
| Emit.MapperFollowsView | src/tasks/createViewModels.ts:104-121 | a mapper file is only written right after the view file of the same record |
| Emit.ViewWritten | src/tasks/createViewModels.ts:99-106 | a view file is written iff some record with that name renders that text and it is not blank |
| Emit.ViewInFileActions | src/tasks/createViewModels.ts:99-106 | the same for one record |
| Emit.MapperRuleWithoutMapperPath | src/tasks/createViewModels.ts:93-121 | without a mapper path, the mapper is written iff the view is and every class with `generateView` set has `needMapper` set |
| Emit.BlankViewWritesNothing | src/tasks/createViewModels.ts:101-104 | a view text that is all whitespace, or empty, writes nothing, not even the mapper |

## Where the model follows the code

The generator's own description and its code differ in a few places. The
model follows the code:

- The converter's whole function text is looked up among the import
  clauses (line 135), not its root identifier.
- A later import with an already seen path overwrites the earlier line's
  clauses (lines 343-345). The clauses are not united.
- Every directive appends its own record (lines 202-211), even when two
  directives give the same file name.
- `any` replaces a concrete context type, but a concrete type after `any`
  is a conflict (line 166).
- The grouping loop recomputes the imports of every record accumulated so
  far, with the current source file's possible imports (lines 67-76).
- Every `.ts` in a record's file name is removed before its directory is
  taken (line 283), including one inside a directory name.
- A mapper import's path is made relative to the mapper path even for a
  package (lines 298-302); only the `./` prefix is skipped for packages.
- Only the first letter of the last `\`-separated segment of a mapper path
  is lowered (line 301). On `/`-separated paths that segment is the whole
  path, so a `../` path keeps its file name as it is.

## Left out

- File system and console: `fs.readFileSync`, `fs.writeFileSync`, `mkdirp`, the `.ts` then `/index.ts` read fallback (lines 139-148), config loading, `Date.now` and `console.log` (lines 351-362). These are I/O. Reading and parsing a converter's module is the input function `Env.load`. The writes of `createFiles` are returned as `WriteAction` values.
- `parseStruct` and nunjucks `configure`/`render` are foreign libraries. Parsed files become `SourceFile` values, and rendered texts are the input functions of `Emit.Renderers`.
- `createClassMeta`, `createFieldMetadata`, `getDependencyImportsForImports`, `mapFileClasses`, `filterFileMetadata`, `createMapperFile` and `getAllFiles` are not part of this model; their source is not available. Their results are inputs: a directive carries its class meta and field metas, `Env.dependencyImports` is `getDependencyImportsForImports`, and `Renderers` holds the rest.
- `path.relative` and `path.dirname` are uninterpreted input functions (`PathOps`). A missing `mapperPath`, which makes `path.relative` throw, is the `MapperPathMissing` error.
- Text.IsNumeric: a simplified reading of `!isNaN(+s)`. After trimming, the text is empty or an optionally signed decimal with at most one point. Hexadecimal, exponents and `Infinity` are not recognised.
- Text.Trim: only ASCII whitespace counts.
- Text.DownFirstLetter: lower-cases only ASCII capitals.
- Transformers.ClassMeta: once a class meta is pushed onto records it is never changed again. The records therefore hold its value, not a shared reference.
- Transformers.SaveInfo: the `!direction` guard (line 127) is vacuous for both directions, so it is not modelled.
- Metadata.NewRecord: a new record's import list is taken to be empty. `FillFileMetadataArray` (lines 202-211) does not set it, so it is what the `FileMetadata` constructor gives, and that class is not part of this model. Later grouping passes start from the import list the previous pass left, as the source does.
- Imports.Merged: line 345 rewrites the type text of an `Import` object already in `newImports`, an object the input list also holds. The model rewrites that line by value (`Reclause`); aliasing between the two lists is not modelled.
- Imports.MapperContext: an unset context type pushes `null` onto the mapper-only names in the source. That value matches no clause, so the model pushes nothing.
- Transformers.ResolveFields: its own contract states only that the number of fields is kept. What resolution does is stated by `ResolveFieldsMonotone`, by `ResolveContext`, `FoldConflict` and `ResolveConflict` for the context types, and step by step by the `SaveInfo` lemmas.
- src/index.ts holds decorator stubs with no behaviour. The files under test/ are fixtures.
