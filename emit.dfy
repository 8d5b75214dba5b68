/** The write decision of `createFiles` in src/tasks/createViewModels.ts:
    each record is prepared for rendering, its view file is written only when
    the rendered text is not blank, and its mapper file only after its view
    and only when every class it renders needs a mapper. The renderer and
    the pipes helpers are inputs; the writes are returned as actions. */
module Emit {
  import opened Text
  import opened Sequences
  import opened Model

  /** The collaborators of `createFiles`: `mapFileClasses`,
      `filterFileMetadata`, and the two templates as rendered by nunjucks. */
  datatype Renderers = Renderers(
    mapClasses: (seq<ClassMetadata>, FileMetadata) -> seq<ClassMetadata>,
    filterImports: (seq<Import>, seq<ClassMetadata>) -> seq<Import>,
    view: FileMetadata -> string,
    mapper: FileMetadata -> string)

  /** A write `createFiles` performs: the view file at the record's name, or
      the mapper file `createMapperFile` makes for the prepared record. */
  datatype WriteAction = WriteView(path: string, text: string) | WriteMapper(meta: FileMetadata, text: string)

  /** Line 93: the classes with `generateView` set, in order. */
  function Generated(cs: seq<ClassMetadata>): (r: seq<ClassMetadata>)
    ensures forall x :: x in r <==> x in cs && x.generateView
    ensures |r| <= |cs|
    decreases |cs|
  {
    if cs == [] then []
    else
      var p := cs[..|cs| - 1];
      assert forall x :: x in p ==> x in cs;
      assert forall x :: x in cs ==> x in p || x == cs[|cs| - 1];
      Generated(p) + (if cs[|cs| - 1].generateView then [cs[|cs| - 1]] else [])
  }

  /** Lines 92-97: a copy of the record with only its generated classes,
      mapped when it has a mapper path, and its imports filtered against
      those classes. */
  function Prepared(fm: FileMetadata, rs: Renderers): (r: FileMetadata)
    ensures r.filename == fm.filename && r.basePath == fm.basePath && r.mapperPath == fm.mapperPath
    ensures Unset(fm.mapperPath) ==> r.classes == Generated(fm.classes)
  {
    var own := fm.(classes := Generated(fm.classes));
    var mapped := if !Unset(fm.mapperPath) then own.(classes := rs.mapClasses(own.classes, own)) else own;
    mapped.(imports := rs.filterImports(mapped.imports, mapped.classes))
  }

  /** Line 110: `!classes.some(cls => !cls.needMapper)`. */
  predicate AllNeedMapper(cs: seq<ClassMetadata>) {
    forall i :: 0 <= i < |cs| ==> cs[i].needMapper
  }

  /** What `createFiles` writes for one record. */
  function FileActions(fm: FileMetadata, rs: Renderers): (r: seq<WriteAction>)
    ensures |r| <= 2
    ensures r != [] <==> Trim(rs.view(Prepared(fm, rs))) != ""
    ensures r != [] ==> r[0] == WriteView(fm.filename, rs.view(Prepared(fm, rs)))
    ensures |r| == 2 <==> r != [] && AllNeedMapper(Prepared(fm, rs).classes)
    ensures |r| == 2 ==> r[1] == WriteMapper(Prepared(fm, rs), rs.mapper(Prepared(fm, rs)))
  {
    var p := Prepared(fm, rs);
    var text := rs.view(p);
    if Trim(text) == "" then []
    else [WriteView(p.filename, text)] + (if AllNeedMapper(p.classes) then [WriteMapper(p, rs.mapper(p))] else [])
  }

  /** Everything `createFiles` writes, record by record. */
  function Writes(files: seq<FileMetadata>, rs: Renderers): seq<WriteAction>
    decreases |files|
  {
    if files == [] then [] else Writes(files[..|files| - 1], rs) + FileActions(files[|files| - 1], rs)
  }

  /** `createFiles(filesMetadata)`: one pass over the records, each write in
      the order the source performs it. */
  method CreateFiles(files: seq<FileMetadata>, rs: Renderers) returns (actions: seq<WriteAction>)
    ensures actions == Writes(files, rs)
  {
    actions := [];
    var i := 0;
    while i < |files|
      invariant 0 <= i <= |files|
      invariant actions == Writes(files[..i], rs)
    {
      var written := CreateFile(files[i], rs);
      WritesSnoc(files, i, rs);
      actions := actions + written;
      i := i + 1;
    }
    assert files[..i] == files;
  }

  /** The body of the loop of lines 89-122 for one record. */
  method CreateFile(record: FileMetadata, rs: Renderers) returns (written: seq<WriteAction>)
    ensures written == FileActions(record, rs)
  {
    written := [];
    var fm := record.(classes := Generated(record.classes));
    if !Unset(fm.mapperPath) {
      fm := fm.(classes := rs.mapClasses(fm.classes, fm));
    }
    fm := fm.(imports := rs.filterImports(fm.imports, fm.classes));
    assert fm == Prepared(record, rs);
    var generated := rs.view(fm);
    var createdMapper := rs.mapper(fm);
    if Trim(generated) == "" {
      return;
    }
    written := [WriteView(fm.filename, generated)];
    if !AllNeedMapper(fm.classes) {
      return;
    }
    written := written + [WriteMapper(fm, createdMapper)];
  }

  lemma WritesSnoc(files: seq<FileMetadata>, i: nat, rs: Renderers)
    requires i < |files|
    ensures Writes(files[..i + 1], rs) == Writes(files[..i], rs) + FileActions(files[i], rs)
  {
    assert files[..i + 1][..i] == files[..i];
  }

  /** The records are handled independently: the writes of two lists of
      records are the writes of each, one after the other. */
  lemma {:induction false} WritesAppend(a: seq<FileMetadata>, b: seq<FileMetadata>, rs: Renderers)
    ensures Writes(a + b, rs) == Writes(a, rs) + Writes(b, rs)
    decreases |b|
  {
    if b != [] {
      var b' := b[..|b| - 1];
      var f := FileActions(b[|b| - 1], rs);
      assert (a + b)[..|a + b| - 1] == a + b';
      assert Writes(a + b, rs) == Writes(a + b', rs) + f;
      WritesAppend(a, b', rs);
      assert Writes(b, rs) == Writes(b', rs) + f;
    } else {
      assert a + b == a;
    }
  }

  /** A mapper file is only ever written right after the view file of the
      same record. */
  lemma {:induction false} MapperFollowsView(files: seq<FileMetadata>, rs: Renderers)
    ensures forall k :: 0 <= k < |Writes(files, rs)| && Writes(files, rs)[k].WriteMapper? ==>
      k > 0 && Writes(files, rs)[k - 1].WriteView? &&
      Writes(files, rs)[k - 1].path == Writes(files, rs)[k].meta.filename
    decreases |files|
  {
    if files != [] {
      var p := files[..|files| - 1];
      MapperFollowsView(p, rs);
      var w := Writes(p, rs);
      var f := FileActions(files[|files| - 1], rs);
      var ws: seq<WriteAction> := Writes(files, rs);
      assert ws == w + f;
      forall k | 0 <= k < |ws| && ws[k].WriteMapper?
        ensures k > 0 && ws[k - 1].WriteView? && ws[k - 1].path == ws[k].meta.filename
      {
        if k >= |w| {
          assert f[k - |w|].WriteMapper?;
          assert k - |w| == 1;
        }
      }
    }
  }

  /** The view files written are exactly those of the records whose
      rendered view is not blank, with the rendered text as content. */
  lemma {:induction false} ViewWritten(files: seq<FileMetadata>, rs: Renderers, path: string, text: string)
    ensures WriteView(path, text) in Writes(files, rs) <==>
      exists i :: 0 <= i < |files| && files[i].filename == path &&
        rs.view(Prepared(files[i], rs)) == text && Trim(text) != ""
    decreases |files|
  {
    if files != [] {
      var p := files[..|files| - 1];
      var last := files[|files| - 1];
      ViewWritten(p, rs, path, text);
      var f := FileActions(last, rs);
      assert Writes(files, rs) == Writes(p, rs) + f;
      ViewInFileActions(last, rs, path, text);
      RendersSnoc(files, p, rs, path, text);
    }
  }

  lemma RendersSnoc(files: seq<FileMetadata>, p: seq<FileMetadata>, rs: Renderers, path: string, text: string)
    requires files != [] && p == files[..|files| - 1]
    ensures var last := files[|files| - 1];
      (exists i :: 0 <= i < |files| && files[i].filename == path &&
        rs.view(Prepared(files[i], rs)) == text && Trim(text) != "")
      <==>
      (exists i :: 0 <= i < |p| && p[i].filename == path &&
        rs.view(Prepared(p[i], rs)) == text && Trim(text) != "")
      || (last.filename == path && rs.view(Prepared(last, rs)) == text && Trim(text) != "")
  {
    if exists i :: 0 <= i < |files| && files[i].filename == path &&
        rs.view(Prepared(files[i], rs)) == text && Trim(text) != "" {
      var i :| 0 <= i < |files| && files[i].filename == path &&
        rs.view(Prepared(files[i], rs)) == text && Trim(text) != "";
      if i < |p| {
        assert p[i] == files[i];
      }
    }
    if exists i :: 0 <= i < |p| && p[i].filename == path &&
        rs.view(Prepared(p[i], rs)) == text && Trim(text) != "" {
      var i :| 0 <= i < |p| && p[i].filename == path &&
        rs.view(Prepared(p[i], rs)) == text && Trim(text) != "";
      assert files[i] == p[i];
    }
  }

  lemma ViewInFileActions(fm: FileMetadata, rs: Renderers, path: string, text: string)
    ensures WriteView(path, text) in FileActions(fm, rs) <==>
      fm.filename == path && rs.view(Prepared(fm, rs)) == text && Trim(text) != ""
  {
    var f := FileActions(fm, rs);
    if |f| == 2 {
      assert f == [f[0], f[1]];
    } else if |f| == 1 {
      assert f == [f[0]];
    }
  }

  /** Without a mapper path the classes are not remapped, and the mapper
      file is written exactly when the view is and every class with
      `generateView` set has `needMapper` set. */
  lemma MapperRuleWithoutMapperPath(fm: FileMetadata, rs: Renderers)
    requires Unset(fm.mapperPath)
    ensures |FileActions(fm, rs)| == 2 <==>
      Trim(rs.view(Prepared(fm, rs))) != "" &&
      forall c :: c in fm.classes && c.generateView ==> c.needMapper
  {
    var g := Generated(fm.classes);
    assert Prepared(fm, rs).classes == g;
    if AllNeedMapper(g) {
      forall c | c in fm.classes && c.generateView ensures c.needMapper {
        assert c in g;
        var i :| 0 <= i < |g| && g[i] == c;
      }
    }
    if forall c :: c in fm.classes && c.generateView ==> c.needMapper {
      forall i | 0 <= i < |g| ensures g[i].needMapper {
        assert g[i] in g;
      }
    }
  }

  /** A record whose view renders to whitespace only writes nothing, not
      even its mapper. */
  lemma BlankViewWritesNothing(fm: FileMetadata, rs: Renderers)
    requires forall k :: 0 <= k < |rs.view(Prepared(fm, rs))| ==> IsWhitespace(rs.view(Prepared(fm, rs))[k])
    ensures Writes([fm], rs) == []
  {
    TrimEmpty(rs.view(Prepared(fm, rs)));
    assert [fm][..0] == [];
  }
}
