/** The unit directory around packaging (copy_imports_libs and clean): the
    shared libraries a unit imports are copied into its directory, the glue
    scripts among them are customised, the directory is zipped to app.zip,
    and after the upload the archive and every entry of an imported library
    are removed again. A directory is modelled by its top-level entries and
    their contents. */
module Workspace {

  import opened Wrappers
  import Resources
  import Glue
  import Convention

  type Files = map<string, string>

  const ZipName := "app.zip"
  /** The bytes of the archive are not modelled. */
  const ZipContent := ""
  const SnsGlueLibrary := "sns_glue"
  const S3GlueLibrary := "s3_glue"
  const SnsGlueFile := "sns_glue.py"
  const S3GlueFile := "s3_glue.py"
  const DbconfFile := "dbconf.py"

  /** What the glue customisation needs to know about the unit. */
  datatype GlueContext = GlueContext(project: string, path: string, staging: bool, policy: Resources.ResourcePolicy)

  predicate Hidden(name: string)
  {
    |name| > 0 && name[0] == '.'
  }

  /** The entries the glob of a library directory lists: the non-hidden ones. */
  function Visible(lib: Files): (r: Files)
    ensures r.Keys <= lib.Keys
  {
    map n | n in lib && !Hidden(n) :: lib[n]
  }

  /** custormize_sns_glue on the directory. */
  function CustomizeSns(files: Files, ctx: GlueContext): Result<Files>
  {
    var topics := Resources.SnsTopics(ctx.policy);
    if SnsGlueFile in files && topics.Some? then
      match Glue.SnsGlue(files[SnsGlueFile], ctx.project, ctx.path, topics.value)
      case Ok(code) => Ok(files[SnsGlueFile := code])
      case Err(e) => Err(e)
    else Ok(files)
  }

  /** custormize_s3_glue on the directory. */
  function CustomizeS3(files: Files, ctx: GlueContext): Files
  {
    var buckets := Resources.S3Buckets(ctx.policy);
    if S3GlueFile in files && buckets.Some? then
      files[S3GlueFile := Glue.S3Glue(files[S3GlueFile], ctx.staging, buckets.value)]
    else files
  }

  /** One import: copy the library's visible entries over the directory, then
      run the library's customisation if it has one. A library that does not
      exist copies nothing. */
  function ImportLibrary(files: Files, lib: string, libraries: map<string, Files>, ctx: GlueContext): (Files, Result<()>)
  {
    var copied := if lib in libraries then files + Visible(libraries[lib]) else files;
    if lib == SnsGlueLibrary then
      match CustomizeSns(copied, ctx)
      case Ok(f) => (f, Ok(()))
      case Err(e) => (copied, Err(e))
    else if lib == S3GlueLibrary then (CustomizeS3(copied, ctx), Ok(()))
    else (copied, Ok(()))
  }

  /** copy_imports_libs: the imports in the order of .import.json. */
  function CopyImports(files: Files, imports: seq<string>, libraries: map<string, Files>, ctx: GlueContext): (Files, Result<()>)
    decreases |imports|
  {
    if imports == [] then (files, Ok(()))
    else
      var (f, r) := ImportLibrary(files, imports[0], libraries, ctx);
      if r.Err? then (f, r) else CopyImports(f, imports[1..], libraries, ctx)
  }

  /** The loop of clean over the imports: every entry of each library is
      removed; listing a library that does not exist raises. */
  function RemoveLibraries(files: Files, imports: seq<string>, libraries: map<string, Files>): (Files, Result<()>)
    decreases |imports|
  {
    if imports == [] then (files, Ok(()))
    else if imports[0] !in libraries then (files, Err(NoSuchEntity("./deliver/" + imports[0])))
    else RemoveLibraries(files - libraries[imports[0]].Keys, imports[1..], libraries)
  }

  /** clean: delete app.zip (raising when it is missing), then the libraries'
      entries. */
  function Clean(files: Files, imports: seq<string>, libraries: map<string, Files>): (Files, Result<()>)
  {
    if ZipName !in files then (files, Err(NoSuchEntity(ZipName)))
    else RemoveLibraries(files - {ZipName}, imports, libraries)
  }

  /** Every entry of every imported library. */
  function Entries(imports: seq<string>, libraries: map<string, Files>): set<string>
    decreases |imports|
  {
    if imports == [] then {}
    else (if imports[0] in libraries then libraries[imports[0]].Keys else {}) + Entries(imports[1..], libraries)
  }

  /** Copying only adds entries of the imported libraries, and leaves the
      entries in `keep`, which no library has and which are not glue scripts,
      as they were. */
  lemma {:induction false} CopyKeeps(files: Files, imports: seq<string>, libraries: map<string, Files>, ctx: GlueContext, keep: set<string>)
    requires keep <= files.Keys && keep !! Entries(imports, libraries)
    requires SnsGlueFile !in keep && S3GlueFile !in keep
    requires Convention.SplitPath(ctx.path).Ok?
    ensures var (f, r) := CopyImports(files, imports, libraries, ctx);
      && r.Ok?
      && keep <= f.Keys && (forall k :: k in keep ==> f[k] == files[k])
      && f.Keys <= files.Keys + Entries(imports, libraries)
    decreases |imports|
  {
    if imports != [] {
      var lib := imports[0];
      var (f1, r1) := ImportLibrary(files, lib, libraries, ctx);
      assert r1.Ok?;
      var here := if lib in libraries then libraries[lib].Keys else {};
      assert Entries(imports, libraries) == here + Entries(imports[1..], libraries);
      assert f1.Keys <= files.Keys + here;
      CopyKeeps(f1, imports[1..], libraries, ctx, keep);
    }
  }

  /** Removing the libraries of a unit whose imports all exist removes exactly
      their entries. */
  lemma {:induction false} RemoveAll(files: Files, imports: seq<string>, libraries: map<string, Files>)
    requires forall i :: 0 <= i < |imports| ==> imports[i] in libraries
    ensures RemoveLibraries(files, imports, libraries) == (files - Entries(imports, libraries), Ok(()))
    decreases |imports|
  {
    if imports != [] {
      var here := libraries[imports[0]].Keys;
      RemoveAll(files - here, imports[1..], libraries);
      assert Entries(imports, libraries) == here + Entries(imports[1..], libraries);
      var lhs := files - here - Entries(imports[1..], libraries);
      var rhs := files - Entries(imports, libraries);
      assert lhs.Keys == rhs.Keys;
      assert lhs == rhs;
    } else {
      assert files - {} == files;
    }
  }

  /** Packaging and cleaning leave a unit directory as it was exactly when it
      held no app.zip and no entry of an imported library; otherwise those
      entries are gone afterwards. */
  lemma CleanRestores(files: Files, imports: seq<string>, libraries: map<string, Files>, ctx: GlueContext)
    requires forall i :: 0 <= i < |imports| ==> imports[i] in libraries
    requires SnsGlueFile !in files && S3GlueFile !in files
    requires Convention.SplitPath(ctx.path).Ok?
    ensures CopyImports(files, imports, libraries, ctx).1.Ok?
    ensures var prepared := CopyImports(files, imports, libraries, ctx).0;
      var (cleaned, r) := Clean(prepared[ZipName := ZipContent], imports, libraries);
      && r.Ok?
      && (cleaned == files <==> files.Keys !! Entries(imports, libraries) && ZipName !in files)
  {
    var e := Entries(imports, libraries);
    var keep := files.Keys - e - {ZipName};
    CopyKeeps(files, imports, libraries, ctx, keep);
    var prepared := CopyImports(files, imports, libraries, ctx).0;
    var zipped := prepared[ZipName := ZipContent];
    RemoveAll(zipped - {ZipName}, imports, libraries);
    var cleaned := zipped - {ZipName} - e;
    assert cleaned.Keys == keep;
    assert forall k :: k in cleaned ==> cleaned[k] == files[k];
    if files.Keys !! e && ZipName !in files {
      assert keep == files.Keys;
      assert cleaned == files;
    } else if ZipName in files {
      assert ZipName !in cleaned;
    } else {
      var n :| n in files.Keys && n in e;
      assert n !in cleaned;
    }
  }
}
