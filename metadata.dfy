/** Building the per-output-file records (`createMetadatas`,
    `FillFileMetadataArray` and the grouping loop in
    src/tasks/createViewModels.ts): every `@GenerateView` directive adds one
    output record, its class meta is resolved and then attached to every
    record so far whose file name mentions the class, and each record's
    imports are recomputed. */
module Metadata {
  import opened Text
  import opened Sequences
  import opened Model
  import opened Transformers
  import opened Imports

  // ---------------------------------------------------------------------
  // Records (lines 202-211)

  /** `${filePath}/${downFirstLetter(model)}.ts`. */
  function FileNameFor(opts: GenerateViewOptions): (r: string)
    ensures r != []
  {
    opts.filePath + "/" + DownFirstLetter(opts.model) + ".ts"
  }

  /** The file name of a directive names its model's file. */
  lemma FileNameNamesModel(opts: GenerateViewOptions)
    ensures Contains(FileNameFor(opts), DownFirstLetter(opts.model) + ".ts")
    ensures StartsWith(FileNameFor(opts), opts.filePath + "/")
  {
    assert FileNameFor(opts) == (opts.filePath + "/") + (DownFirstLetter(opts.model) + ".ts");
    ContainsSuffix(opts.filePath + "/", DownFirstLetter(opts.model) + ".ts");
  }

  /** The record `FillFileMetadataArray` makes for a directive of `file`:
      no classes and no imports yet. */
  function NewRecord(opts: GenerateViewOptions, file: string): FileMetadata {
    FileMetadata(FileNameFor(opts), file, opts.mapperPath, [], [])
  }

  // ---------------------------------------------------------------------
  // Grouping (lines 67-76)

  /** The grouping test of lines 69-70. */
  predicate BelongsTo(cm: ClassMetadata, filename: string) {
    Contains(filename, DownFirstLetter(cm.name) + ".ts")
  }

  /** The class metas pushed onto a record named `filename`, in order. */
  function Matching(cms: seq<ClassMetadata>, filename: string): (r: seq<ClassMetadata>)
    ensures forall x :: x in r <==> x in cms && BelongsTo(x, filename)
    ensures |r| <= |cms|
    decreases |cms|
  {
    if cms == [] then []
    else
      var p := cms[..|cms| - 1];
      assert forall x :: x in p ==> x in cms;
      assert forall x :: x in cms ==> x in p || x == cms[|cms| - 1];
      Matching(p, filename) + (if BelongsTo(cms[|cms| - 1], filename) then [cms[|cms| - 1]] else [])
  }

  /** A class meta named after its directive's model goes to that
      directive's record. */
  lemma OwnRecordGetsClass(cm: ClassMetadata, opts: GenerateViewOptions)
    requires DownFirstLetter(cm.name) == DownFirstLetter(opts.model)
    ensures BelongsTo(cm, FileNameFor(opts))
  {
    FileNameNamesModel(opts);
  }

  /** One record after the grouping loop has visited it: the matching
      class metas appended, then its imports recomputed. */
  function Attach(f: FileMetadata, cms: seq<ClassMetadata>, possible: seq<ImportNode>, env: Env): Result<FileMetadata> {
    var g := f.(classes := f.classes + Matching(cms, f.filename));
    match CorrectedImports(g, possible, env)
    case Err(e) => Err(e)
    case Ok(im) => Ok(g.(imports := im))
  }

  /** The grouping loop over every record so far, stopping at the first
      throw. */
  function Regroup(files: seq<FileMetadata>, cms: seq<ClassMetadata>, possible: seq<ImportNode>,
                   env: Env): Result<seq<FileMetadata>>
  {
    TryMap(files, f => Attach(f, cms, possible, env))
  }

  /** Grouping keeps every record, in place: the record at each position
      is the one `Attach` makes of the record that was there. */
  lemma RegroupShape(files: seq<FileMetadata>, cms: seq<ClassMetadata>, possible: seq<ImportNode>, env: Env)
    ensures Regroup(files, cms, possible, env).Ok? ==>
      var r := Regroup(files, cms, possible, env).value;
      |r| == |files| && forall i :: 0 <= i < |files| ==> Attach(files[i], cms, possible, env) == Ok(r[i])
  {
    if Regroup(files, cms, possible, env).Ok? {
      RegroupLength(files, cms, possible, env);
      forall i | 0 <= i < |files|
        ensures Attach(files[i], cms, possible, env) == Ok(Regroup(files, cms, possible, env).value[i])
      {
        RegroupAt(files, cms, possible, env, i);
      }
    }
  }

  lemma RegroupLength(files: seq<FileMetadata>, cms: seq<ClassMetadata>, possible: seq<ImportNode>, env: Env)
    ensures Regroup(files, cms, possible, env).Ok? ==> |Regroup(files, cms, possible, env).value| == |files|
  {
    TryMapLength(files, f => Attach(f, cms, possible, env));
  }

  lemma RegroupAt(files: seq<FileMetadata>, cms: seq<ClassMetadata>, possible: seq<ImportNode>, env: Env, i: nat)
    requires i < |files| && Regroup(files, cms, possible, env).Ok?
    ensures |Regroup(files, cms, possible, env).value| == |files|
    ensures Attach(files[i], cms, possible, env) == Ok(Regroup(files, cms, possible, env).value[i])
  {
    TryMapAt(files, f => Attach(f, cms, possible, env), i);
  }

  /** Each record gains exactly the class metas that belong to it, after
      those it had, and only its classes and imports change. */
  lemma AttachShape(f: FileMetadata, cms: seq<ClassMetadata>, possible: seq<ImportNode>, env: Env)
    ensures Attach(f, cms, possible, env).Ok? ==>
      Attach(f, cms, possible, env).value
        == f.(classes := f.classes + Matching(cms, f.filename), imports := Attach(f, cms, possible, env).value.imports)
  {
  }

  lemma RegroupPrefixFails(files: seq<FileMetadata>, n: nat, cms: seq<ClassMetadata>,
                            possible: seq<ImportNode>, env: Env)
    requires n <= |files|
    requires Regroup(files[..n], cms, possible, env).Err?
    ensures Regroup(files[..|files|], cms, possible, env) == Regroup(files[..n], cms, possible, env)
  {
    TryMapPrefixFails(files, n, f => Attach(f, cms, possible, env));
  }

  // ---------------------------------------------------------------------
  // One source class (lines 36-76)

  /** A class meta after lines 51-56: its origin set and the field metas of
      the directive appended. */
  function Originate(v: ViewDirective, className: string, file: string): ClassMetadata {
    v.meta.(baseName := className, baseNamePath := file, fields := v.meta.fields + v.fields)
  }

  /** The resolved class metas of a class's directives, and the possible
      imports after them. */
  datatype Resolved = Resolved(metas: seq<ClassMetadata>, possible: seq<ImportNode>)

    /** A resolved class meta keeps its directive's name and flags, has the
      source class and file as its origin, and has the directive's field
      metas followed by one per class field, with only their converter
      bindings resolved. */
  predicate ResolvedFrom(m: ClassMetadata, v: ViewDirective, className: string, file: string) {
    && m.name == v.meta.name && m.generateView == v.meta.generateView && m.needMapper == v.meta.needMapper
    && m.baseName == className && m.baseNamePath == file
    && SameButConvert(m.fields, v.meta.fields + v.fields)
  }

  /** Lines 50-65: each directive's class meta resolved in turn, the
      possible imports threaded through, stopping at the first throw. */
  function ResolveViews(views: seq<ViewDirective>, className: string, file: string, possible: seq<ImportNode>,
                        load: seq<string> -> ParsedModule): (r: Result<Resolved>)
    ensures r.Ok? ==> |r.value.metas| == |views| && possible <= r.value.possible
    ensures r.Ok? ==> forall i :: 0 <= i < |views| ==> ResolvedFrom(r.value.metas[i], views[i], className, file)
    decreases |views|
  {
    if views == [] then Ok(Resolved([], possible))
    else
      var p := views[..|views| - 1];
      match ResolveViews(p, className, file, possible, load)
      case Err(e) => Err(e)
      case Ok(rs) =>
        var v := views[|views| - 1];
        var cm := Originate(v, className, file);
        var r := ResolveFields(cm, 0, rs.possible, load);
        ResolveFieldsMonotone(cm, 0, rs.possible, load, ToView);
        ResolveFieldsKeepsFields(cm, 0, rs.possible, load);
        if r.outcome.Fail? then Err(r.outcome.error)
        else
          var metas := rs.metas + [r.meta];
          assert forall i :: 0 <= i < |p| ==> metas[i] == rs.metas[i] && views[i] == p[i];
          Ok(Resolved(metas, r.imports))
  }

  /** The records of a class's directives, in directive order. */
  function Records(views: seq<ViewDirective>, file: string): (r: seq<FileMetadata>)
    ensures |r| == |views| && forall i :: 0 <= i < |views| ==> r[i] == NewRecord(views[i].options, file)
  {
    seq(|views|, i requires 0 <= i < |views| => NewRecord(views[i].options, file))
  }

  /** The accumulated records and the source file's possible imports. */
  datatype Progress = Progress(files: seq<FileMetadata>, possible: seq<ImportNode>)

  /** What one source class does to the progress: nothing without a
      directive; else one record per directive, then its class metas
      resolved and grouped into every record so far. */
  function ClassStep(p: Progress, cls: SourceClass, file: string, env: Env): Result<Progress> {
    if cls.views == [] then Ok(p)
    else
      var files := p.files + Records(cls.views, file);
      match ResolveViews(cls.views, cls.name, file, p.possible, env.load)
      case Err(e) => Err(e)
      case Ok(rs) =>
        match Regroup(files, rs.metas, rs.possible, env)
        case Err(e) => Err(e)
        case Ok(fs) => Ok(Progress(fs, rs.possible))
  }

  /** The classes of one source file, in order. */
  function ClassesStep(p: Progress, classes: seq<SourceClass>, file: string, env: Env): Result<Progress>
    decreases |classes|
  {
    if classes == [] then Ok(p)
    else match ClassesStep(p, classes[..|classes| - 1], file, env)
      case Err(e) => Err(e)
      case Ok(q) => ClassStep(q, classes[|classes| - 1], file, env)
  }

  /** Lines 30-80 for one source file: its own imports are the first
      possible imports. */
  function SourceStep(files: seq<FileMetadata>, src: SourceFile, env: Env): Result<seq<FileMetadata>> {
    match ClassesStep(Progress(files, src.imports), src.classes, src.path, env)
    case Err(e) => Err(e)
    case Ok(q) => Ok(q.files)
  }

  /** Every source file, in order. */
  function AllFiles(sources: seq<SourceFile>, env: Env): Result<seq<FileMetadata>>
    decreases |sources|
  {
    if sources == [] then Ok([])
    else match AllFiles(sources[..|sources| - 1], env)
      case Err(e) => Err(e)
      case Ok(fs) => SourceStep(fs, sources[|sources| - 1], env)
  }

  /** Line 82: the records whose file name is not empty. */
  function Named(files: seq<FileMetadata>): (r: seq<FileMetadata>)
    ensures forall x :: x in r <==> x in files && x.filename != ""
    decreases |files|
  {
    if files == [] then []
    else
      var p := files[..|files| - 1];
      assert forall x :: x in p ==> x in files;
      assert forall x :: x in files ==> x in p || x == files[|files| - 1];
      Named(p) + (if files[|files| - 1].filename != "" then [files[|files| - 1]] else [])
  }

  /** `createMetadatas(files)`. */
  function CreatedMetadatas(sources: seq<SourceFile>, env: Env): Result<seq<FileMetadata>> {
    match AllFiles(sources, env)
    case Err(e) => Err(e)
    case Ok(fs) => Ok(Named(fs))
  }

  // ---------------------------------------------------------------------
  // One record per directive, and the final filter

  function Filenames(files: seq<FileMetadata>): (r: seq<string>)
    ensures |r| == |files| && forall i :: 0 <= i < |files| ==> r[i] == files[i].filename
  {
    seq(|files|, i requires 0 <= i < |files| => files[i].filename)
  }

  /** The file names of a class's directives. */
  function ViewNames(views: seq<ViewDirective>): (r: seq<string>)
    ensures |r| == |views| && forall i :: 0 <= i < |views| ==> r[i] == FileNameFor(views[i].options)
  {
    seq(|views|, i requires 0 <= i < |views| => FileNameFor(views[i].options))
  }

  /** The file names of every directive of `classes`, in order. */
  function ClassNames(classes: seq<SourceClass>): seq<string>
    decreases |classes|
  {
    if classes == [] then [] else ClassNames(classes[..|classes| - 1]) + ViewNames(classes[|classes| - 1].views)
  }

  /** The file names of every directive of `sources`, in order. */
  function DirectiveNames(sources: seq<SourceFile>): seq<string>
    decreases |sources|
  {
    if sources == [] then [] else DirectiveNames(sources[..|sources| - 1]) + ClassNames(sources[|sources| - 1].classes)
  }

  lemma RegroupNames(files: seq<FileMetadata>, cms: seq<ClassMetadata>, possible: seq<ImportNode>, env: Env)
    ensures Regroup(files, cms, possible, env).Ok? ==> Filenames(Regroup(files, cms, possible, env).value) == Filenames(files)
  {
    RegroupShape(files, cms, possible, env);
    if Regroup(files, cms, possible, env).Ok? {
      var r := Regroup(files, cms, possible, env).value;
      forall i | 0 <= i < |files| ensures r[i].filename == files[i].filename {
        AttachShape(files[i], cms, possible, env);
      }
    }
  }

  lemma ClassStepNames(p: Progress, cls: SourceClass, file: string, env: Env)
    ensures ClassStep(p, cls, file, env).Ok? ==>
      Filenames(ClassStep(p, cls, file, env).value.files) == Filenames(p.files) + ViewNames(cls.views)
  {
    if cls.views != [] {
      var files := p.files + Records(cls.views, file);
      RecordNames(p.files, cls.views, file);
      match ResolveViews(cls.views, cls.name, file, p.possible, env.load)
      case Err(_) =>
      case Ok(rs) => RegroupNames(files, rs.metas, rs.possible, env);
    } else {
      assert ViewNames(cls.views) == [];
    }
  }

  lemma RecordNames(files: seq<FileMetadata>, views: seq<ViewDirective>, file: string)
    ensures Filenames(files + Records(views, file)) == Filenames(files) + ViewNames(views)
  {
  }

  lemma {:induction false} ClassesStepNames(p: Progress, classes: seq<SourceClass>, file: string, env: Env)
    ensures ClassesStep(p, classes, file, env).Ok? ==>
      Filenames(ClassesStep(p, classes, file, env).value.files) == Filenames(p.files) + ClassNames(classes)
    decreases |classes|
  {
    if classes != [] {
      ClassesStepNames(p, classes[..|classes| - 1], file, env);
      match ClassesStep(p, classes[..|classes| - 1], file, env)
      case Err(_) =>
      case Ok(q) => ClassStepNames(q, classes[|classes| - 1], file, env);
    }
  }

  /** Every directive produces exactly one record, in directive order, and
      records are never merged: the file names of the records are the
      file names of the directives. */
  lemma {:induction false} OneRecordPerDirective(sources: seq<SourceFile>, env: Env)
    ensures AllFiles(sources, env).Ok? ==> Filenames(AllFiles(sources, env).value) == DirectiveNames(sources)
    decreases |sources|
  {
    if sources != [] {
      OneRecordPerDirective(sources[..|sources| - 1], env);
      match AllFiles(sources[..|sources| - 1], env)
      case Err(_) =>
      case Ok(fs) =>
        var src := sources[|sources| - 1];
        ClassesStepNames(Progress(fs, src.imports), src.classes, src.path, env);
    }
  }

  /** No directive has an empty file name. */
  lemma {:induction false} DirectiveNamesNonEmpty(sources: seq<SourceFile>)
    ensures forall i :: 0 <= i < |DirectiveNames(sources)| ==> DirectiveNames(sources)[i] != ""
    decreases |sources|
  {
    if sources != [] {
      DirectiveNamesNonEmpty(sources[..|sources| - 1]);
      ClassNamesNonEmpty(sources[|sources| - 1].classes);
    }
  }

  lemma {:induction false} ClassNamesNonEmpty(classes: seq<SourceClass>)
    ensures forall i :: 0 <= i < |ClassNames(classes)| ==> ClassNames(classes)[i] != ""
    decreases |classes|
  {
    if classes != [] {
      ClassNamesNonEmpty(classes[..|classes| - 1]);
    }
  }

  lemma {:induction false} NamedKeepsAll(files: seq<FileMetadata>)
    requires forall i :: 0 <= i < |files| ==> files[i].filename != ""
    ensures Named(files) == files
    decreases |files|
  {
    if files != [] {
      var p := files[..|files| - 1];
      assert forall i :: 0 <= i < |p| ==> p[i] == files[i];
      NamedKeepsAll(p);
      assert Named(files) == Named(p) + [files[|files| - 1]];
      FrontLast(files);
    }
  }

  /** The final filter of line 82 never drops a record: each record's file
      name ends in `.ts`. */
  lemma FilterDropsNothing(sources: seq<SourceFile>, env: Env)
    ensures AllFiles(sources, env).Ok? ==> CreatedMetadatas(sources, env) == AllFiles(sources, env)
  {
    if AllFiles(sources, env).Ok? {
      var fs := AllFiles(sources, env).value;
      OneRecordPerDirective(sources, env);
      DirectiveNamesNonEmpty(sources);
      assert forall i :: 0 <= i < |fs| ==> fs[i].filename == Filenames(fs)[i];
      NamedKeepsAll(fs);
    }
  }

  // ---------------------------------------------------------------------
  // The accumulator `generationFiles`

  /** The growing list of output records. */
  class MetadataBuilder {
    var files: seq<FileMetadata>

    constructor ()
      ensures files == []
    {
      files := [];
    }

    /** `FillFileMetadataArray(generationFiles, opts, file)`: exactly one
        record is appended, and none is merged. */
    method FillFileMetadataArray(opts: GenerateViewOptions, file: string)
      modifies this
      ensures files == old(files) + [NewRecord(opts, file)]
    {
      files := files + [FileMetadata(FileNameFor(opts), file, opts.mapperPath, [], [])];
    }

    method Group(cms: seq<ClassMetadata>, possible: seq<ImportNode>, env: Env) returns (outcome: Outcome)
      modifies this
      ensures Regroup(old(files), cms, possible, env) == if outcome.Pass? then Ok(files) else Err(outcome.error)
    {
      var r := RegroupAll(files, cms, possible, env);
      if r.Err? {
        return Fail(r.error);
      }
      outcome := Pass;
      files := r.value;
    }

    /** Lines 36-76 for one source class. */
    method ProcessClass(cls: SourceClass, file: string, possible: seq<ImportNode>, env: Env)
      returns (outcome: Outcome, after: seq<ImportNode>)
      modifies this
      ensures ClassStep(Progress(old(files), possible), cls, file, env)
        == if outcome.Pass? then Ok(Progress(files, after)) else Err(outcome.error)
    {
      outcome, after := Pass, possible;
      if |cls.views| == 0 {
        return;
      }
      var v := 0;
      while v < |cls.views|
        invariant 0 <= v <= |cls.views|
        invariant files == old(files) + Records(cls.views[..v], file)
      {
        FillFileMetadataArray(cls.views[v].options, file);
        assert Records(cls.views[..v + 1], file) == Records(cls.views[..v], file) + [NewRecord(cls.views[v].options, file)];
        v := v + 1;
      }
      assert cls.views[..v] == cls.views;
      var rs := ResolveViewsOf(cls.views, cls.name, file, possible, env.load);
      if rs.Err? {
        return Fail(rs.error), possible;
      }
      outcome := Group(rs.value.metas, rs.value.possible, env);
      after := rs.value.possible;
    }

    /** Lines 30-80 for one source file. */
    method ProcessSource(src: SourceFile, env: Env) returns (outcome: Outcome)
      modifies this
      ensures SourceStep(old(files), src, env) == if outcome.Pass? then Ok(files) else Err(outcome.error)
    {
      outcome := Pass;
      ghost var p0 := Progress(files, src.imports);
      var possible := src.imports;
      var c := 0;
      while c < |src.classes|
        invariant 0 <= c <= |src.classes|
        invariant outcome == Pass
        invariant ClassesStep(p0, src.classes[..c], src.path, env) == Ok(Progress(files, possible))
      {
        outcome, possible := ProcessNext(p0, src, c, possible, env);
        if outcome.Fail? {
          ClassesStepPrefixFails(p0, src.classes, c + 1, src.path, env);
          return;
        }
        c := c + 1;
      }
      assert src.classes[..c] == src.classes;
    }

    /** The next class of `src` processed, the classes before it done. */
    method ProcessNext(ghost p0: Progress, src: SourceFile, c: nat, possible: seq<ImportNode>, env: Env)
      returns (outcome: Outcome, after: seq<ImportNode>)
      requires c < |src.classes|
      requires ClassesStep(p0, src.classes[..c], src.path, env) == Ok(Progress(files, possible))
      modifies this
      ensures ClassesStep(p0, src.classes[..c + 1], src.path, env)
        == if outcome.Pass? then Ok(Progress(files, after)) else Err(outcome.error)
    {
      ClassesStepSnoc(p0, src.classes, c, src.path, env, Progress(files, possible));
      outcome, after := ProcessClass(src.classes[c], src.path, possible, env);
    }
  }

  lemma ClassesStepSnoc(p: Progress, classes: seq<SourceClass>, c: nat, file: string, env: Env, q: Progress)
    requires c < |classes|
    requires ClassesStep(p, classes[..c], file, env) == Ok(q)
    ensures ClassesStep(p, classes[..c + 1], file, env) == ClassStep(q, classes[c], file, env)
  {
    assert classes[..c + 1][..c] == classes[..c];
  }

  lemma {:induction false} ClassesStepPrefixFails(p: Progress, classes: seq<SourceClass>, n: nat, file: string, env: Env)
    requires n <= |classes|
    requires ClassesStep(p, classes[..n], file, env).Err?
    ensures ClassesStep(p, classes, file, env) == ClassesStep(p, classes[..n], file, env)
    decreases |classes| - n
  {
    if n == |classes| {
      assert classes[..n] == classes;
    } else {
      assert classes[..n + 1][..n] == classes[..n];
      ClassesStepPrefixFails(p, classes, n + 1, file, env);
    }
  }

  /** One more source file: its step runs on the records of the ones before it. */
  lemma AllFilesStep(sources: seq<SourceFile>, s: nat, env: Env, fs: seq<FileMetadata>)
    requires s < |sources| && AllFiles(sources[..s], env) == Ok(fs)
    ensures AllFiles(sources[..s + 1], env) == SourceStep(fs, sources[s], env)
  {
    assert sources[..s + 1][..s] == sources[..s];
  }

  lemma {:induction false} AllFilesPrefixFails(sources: seq<SourceFile>, n: nat, env: Env)
    requires n <= |sources|
    requires AllFiles(sources[..n], env).Err?
    ensures AllFiles(sources[..|sources|], env) == AllFiles(sources[..n], env)
    decreases |sources| - n
  {
    if n < |sources| {
      assert sources[..n + 1][..n] == sources[..n];
      AllFilesPrefixFails(sources, n + 1, env);
    }
  }

  lemma {:induction false} ResolveViewsPrefixFails(views: seq<ViewDirective>, n: nat, className: string, file: string,
                                                   possible: seq<ImportNode>, load: seq<string> -> ParsedModule)
    requires n <= |views|
    requires ResolveViews(views[..n], className, file, possible, load).Err?
    ensures ResolveViews(views[..|views|], className, file, possible, load) == ResolveViews(views[..n], className, file, possible, load)
    decreases |views| - n
  {
    if n < |views| {
      assert views[..n + 1][..n] == views[..n];
      ResolveViewsPrefixFails(views, n + 1, className, file, possible, load);
    }
  }

  method RegroupAll(start: seq<FileMetadata>, cms: seq<ClassMetadata>, possible: seq<ImportNode>, env: Env)
    returns (r: Result<seq<FileMetadata>>)
    ensures r == Regroup(start, cms, possible, env)
  {
    var done: seq<FileMetadata> := [];
    var i := 0;
    while i < |start|
      invariant 0 <= i <= |start|
      invariant Regroup(start[..i], cms, possible, env) == Ok(done)
    {
      assert start[..i + 1][..i] == start[..i];
      var g := AttachTo(start[i], cms, possible, env);
      if g.Err? {
        RegroupPrefixFails(start, i + 1, cms, possible, env);
        assert start[..|start|] == start;
        return Err(g.error);
      }
      done := done + [g.value];
      i := i + 1;
    }
    assert start[..i] == start;
    r := Ok(done);
  }

  /** Lines 68-75 for one record: the matching class metas pushed, then
      `makeCorrectImports`. */
  method AttachTo(f: FileMetadata, cms: seq<ClassMetadata>, possible: seq<ImportNode>, env: Env)
    returns (r: Result<FileMetadata>)
    ensures r == Attach(f, cms, possible, env)
  {
    var attached := MatchingClasses(cms, f.filename);
    var g := f.(classes := f.classes + attached);
    var im := MakeCorrectImports(g, possible, env);
    if im.Err? {
      return Err(im.error);
    }
    r := Ok(g.(imports := im.value));
  }

  /** The class metas pushed onto a record named `filename`. */
  method MatchingClasses(cms: seq<ClassMetadata>, filename: string) returns (r: seq<ClassMetadata>)
    ensures r == Matching(cms, filename)
  {
    r := [];
    var j := 0;
    while j < |cms|
      invariant 0 <= j <= |cms|
      invariant r == Matching(cms[..j], filename)
    {
      assert cms[..j + 1][..j] == cms[..j];
      if Contains(filename, DownFirstLetter(cms[j].name) + ".ts") {
        r := r + [cms[j]];
      }
      j := j + 1;
    }
    assert cms[..j] == cms;
  }

  /** Lines 43-65: a class meta object per directive, filled in and
      resolved in directive order. */
  method ResolveViewsOf(views: seq<ViewDirective>, className: string, file: string, possible: seq<ImportNode>,
                        load: seq<string> -> ParsedModule) returns (r: Result<Resolved>)
    ensures r == ResolveViews(views, className, file, possible, load)
  {
    var metas: seq<ClassMetadata> := [];
    var imports := possible;
    var v := 0;
    while v < |views|
      invariant 0 <= v <= |views|
      invariant ResolveViews(views[..v], className, file, possible, load) == Ok(Resolved(metas, imports))
    {
      assert views[..v + 1][..v] == views[..v];
      var cm := new ClassMeta(views[v].meta);
      cm.SetOrigin(className, file);
      var k := 0;
      while k < |views[v].fields|
        invariant 0 <= k <= |views[v].fields|
        invariant cm.Value() == views[v].meta.(baseName := className, baseNamePath := file,
                                               fields := views[v].meta.fields + views[v].fields[..k])
      {
        cm.AddField(views[v].fields[k]);
        assert views[v].fields[..k + 1] == views[v].fields[..k] + [views[v].fields[k]];
        k := k + 1;
      }
      assert views[v].fields[..k] == views[v].fields;
      var outcome;
      outcome, imports := cm.ResolveTransformers(imports, load);
      if outcome.Fail? {
        ResolveViewsPrefixFails(views, v + 1, className, file, possible, load);
        assert views[..|views|] == views;
        return Err(outcome.error);
      }
      metas := metas + [cm.Value()];
      v := v + 1;
    }
    assert views[..v] == views;
    r := Ok(Resolved(metas, imports));
  }

  /** `createMetadatas(files)`, the source files parsed beforehand. */
  method CreateMetadatas(sources: seq<SourceFile>, env: Env) returns (r: Result<seq<FileMetadata>>)
    ensures r == CreatedMetadatas(sources, env)
  {
    var builder := new MetadataBuilder();
    var s := 0;
    while s < |sources|
      invariant 0 <= s <= |sources|
      invariant AllFiles(sources[..s], env) == Ok(builder.files)
    {
      AllFilesStep(sources, s, env, builder.files);
      var outcome := builder.ProcessSource(sources[s], env);
      if outcome.Fail? {
        AllFilesPrefixFails(sources, s + 1, env);
        assert sources[..|sources|] == sources;
        return Err(outcome.error);
      }
      s := s + 1;
    }
    assert sources[..s] == sources;
    r := Ok(Named(builder.files));
  }
}
