/** deploy_lambda_function: package the unit directory with its imported
    libraries, create the function or update its code and configuration, and
    clean the directory again. */
module Functions {

  import opened Wrappers
  import opened Cloud
  import opened Project
  import Settings
  import Workspace
  import Convention

  /** The configuration a new function is created with. The description is
      always the database record, whether or not the unit has dbconf.py; the
      VPC configuration is passed outside staging mode only. */
  function NewFunction(s: Setup, roleArn: string, code: Workspace.Files, unit: UnitConfig): FunctionConfig
  {
    FunctionConfig(
      roleArn, Handler, Runtime, Settings.DatabaseConfig(s.databases, s.staging),
      Settings.Resolve(unit.lambda), code, if s.staging then None else Some(unit.vpc))
  }

  /** The provider part of deploy_lambda_function, once the archive exists:
      create_function when get_function finds nothing; otherwise
      update_function_code, then update_function_configuration. The role's
      ARN is read only where the arguments are built, so a missing role fails
      an update after its code has been replaced. */
  function Upload(s: Setup, c: CloudState, name: string, role: string, code: Workspace.Files, hasDbconf: bool, unit: UnitConfig)
    : (CloudState, Result<string>)
  {
    match c.GetFunction(name)
    case None =>
      (match c.LookupRole(role)
       case Err(e) => (c, Err(e))
       case Ok(arn) => c.CreateFunction(name, NewFunction(s, arn, code, unit)))
    case Some(_) =>
      var (c1, r1) := c.UpdateFunctionCode(name, code);
      if r1.Err? then (c1, r1)
      else
        match c1.LookupRole(role)
        case Err(e) => (c1, Err(e))
        case Ok(arn) =>
          var description := Settings.Description(hasDbconf, name, Settings.DatabaseConfig(s.databases, s.staging));
          c1.UpdateFunctionConfiguration(name, arn, description, Settings.Resolve(unit.lambda))
  }

  /** deploy_lambda_function on the unit directories and the account. */
  function DeployLambdaFunction(s: Setup, w: World, name: string, role: string): (World, Result<string>)
  {
    match Convention.ToPath(name)
    case Err(e) => (w, Err(e))
    case Ok(path) =>
      if path !in w.disk then (w, Err(NotADirectory(path)))
      else
        var (prepared, rc) := Prepare(s, w.disk[path], path);
        if rc.Err? then (w.(disk := w.disk[path := prepared]), Err(rc.error))
        else UploadAndClean(s, w, path, prepared, name, role)
  }

  /** copy_imports_libs on the unit directory at `path`. */
  function Prepare(s: Setup, files: Workspace.Files, path: string): (Workspace.Files, Result<()>)
  {
    var unit := UnitAt(s, path);
    Workspace.CopyImports(files, unit.imports, s.libraries, Workspace.GlueContext(s.project, path, s.staging, unit.policy))
  }

  /** The rest of deploy_lambda_function once the imports are in place: write
      app.zip, upload, clean. */
  function UploadAndClean(s: Setup, w: World, path: string, prepared: Workspace.Files, name: string, role: string)
    : (World, Result<string>)
  {
    var unit := UnitAt(s, path);
    var zipped := prepared[Workspace.ZipName := Workspace.ZipContent];
    var code := prepared - {Workspace.ZipName};
    var (c1, r1) := Upload(s, w.cloud, name, role, code, Workspace.DbconfFile in zipped, unit);
    if r1.Err? then (World(w.disk[path := zipped], c1), r1)
    else
      var (cleaned, r2) := Workspace.Clean(zipped, unit.imports, s.libraries);
      (World(w.disk[path := cleaned], c1), if r2.Err? then Err(r2.error) else r1)
  }

  /** A function that does not exist yet is created with the unit's settings,
      the role's ARN, the fixed handler and runtime, the database record as its
      description, and the VPC configuration outside staging mode; its timeout
      is the configured one or the 3-second default. */
  lemma UploadCreates(s: Setup, c: CloudState, name: string, role: string, code: Workspace.Files, hasDbconf: bool, unit: UnitConfig)
    requires name !in c.functions && role in c.roles
    ensures var (c1, r) := Upload(s, c, name, role, code, hasDbconf, unit);
      var sent := NewFunction(s, c.RoleArn(role), code, unit);
      && r == Ok(c.FunctionArn(name))
      && c1 == c.(functions := c.functions[name := sent.(settings := Settings.Created(sent.settings))],
                  permissions := c.permissions - {name})
      && c1.PermissionsOf(name) == []
      && c1.functions[name].handler == Handler && c1.functions[name].runtime == Runtime
      && c1.functions[name].description == Settings.DatabaseConfig(s.databases, s.staging)
      && (c1.functions[name].vpc.Some? <==> !s.staging)
      && c1.functions[name].settings.timeout
         == Some(if "timeout" in unit.lambda then unit.lambda["timeout"] else Settings.DefaultTimeout)
  {
    Settings.CreatedTimeout(unit.lambda);
  }

  /** An existing function gets the new code, role, description and settings;
      its handler, runtime and VPC configuration stay as they were, and so does
      its timeout when a non-empty .lambda.json sets none. */
  lemma UploadUpdates(s: Setup, c: CloudState, name: string, role: string, code: Workspace.Files, hasDbconf: bool, unit: UnitConfig)
    requires name in c.functions && role in c.roles
    ensures var (c1, r) := Upload(s, c, name, role, code, hasDbconf, unit);
      var f := c.functions[name];
      && r == Ok(c.FunctionArn(name))
      && c1 == c.(functions := c.functions[name := f.(
           code := code, role := c.RoleArn(role),
           description := Settings.Description(hasDbconf, name, Settings.DatabaseConfig(s.databases, s.staging)),
           settings := Settings.Updated(f.settings, Settings.Resolve(unit.lambda)))])
      && c1.functions[name].handler == f.handler && c1.functions[name].runtime == f.runtime
      && c1.functions[name].vpc == f.vpc
      && c1.functions[name].settings.timeout
         == if "timeout" in unit.lambda then Some(unit.lambda["timeout"])
            else if unit.lambda == map[] then Some(Settings.DefaultTimeout)
            else f.settings.timeout
  {
    Settings.UpdatedTimeout(c.functions[name].settings, unit.lambda);
  }

  /** When the role is missing, a new function is not created, but an existing
      one is left with the new code and its old configuration. */
  lemma UploadMissingRole(s: Setup, c: CloudState, name: string, role: string, code: Workspace.Files, hasDbconf: bool, unit: UnitConfig)
    requires role !in c.roles
    ensures var (c1, r) := Upload(s, c, name, role, code, hasDbconf, unit);
      && r.Err?
      && (name !in c.functions ==> c1 == c)
      && (name in c.functions ==> c1 == c.(functions := c.functions[name := c.functions[name].(code := code)]))
  {
  }

  /** Deploying the same code a second time changes nothing but the
      description: the first deployment stored the database record, the second
      one stores the deploy name unless the unit holds dbconf.py. */
  lemma RedeployChangesOnlyDescription(s: Setup, c: CloudState, name: string, role: string, code: Workspace.Files, hasDbconf: bool, unit: UnitConfig)
    requires Upload(s, c, name, role, code, hasDbconf, unit).1.Ok?
    ensures var c1 := Upload(s, c, name, role, code, hasDbconf, unit).0;
      var (c2, r2) := Upload(s, c1, name, role, code, hasDbconf, unit);
      && name in c1.functions
      && r2.Ok?
      && c2 == c1.(functions := c1.functions[name := c1.functions[name].(
           description := Settings.Description(hasDbconf, name, Settings.DatabaseConfig(s.databases, s.staging)))])
  {
    var (c1, r1) := Upload(s, c, name, role, code, hasDbconf, unit);
    assert role in c.roles;
    if name in c.functions {
      UploadUpdates(s, c, name, role, code, hasDbconf, unit);
    } else {
      UploadCreates(s, c, name, role, code, hasDbconf, unit);
    }
    UploadUpdates(s, c1, name, role, code, hasDbconf, unit);
    var sent := Settings.Resolve(unit.lambda);
    if name in c.functions {
      Settings.UpdatedTwice(c.functions[name].settings, sent);
    } else {
      Settings.UpdatedAfterCreated(sent);
    }
    var f := c1.functions[name];
    assert f.(code := code, role := c1.RoleArn(role), settings := Settings.Updated(f.settings, sent)) == f;
  }

  /** With an existing role the upload succeeds and the function holds the
      uploaded code. */
  lemma UploadSucceeds(s: Setup, c: CloudState, name: string, role: string, code: Workspace.Files, hasDbconf: bool, unit: UnitConfig)
    requires role in c.roles
    ensures var (c1, r) := Upload(s, c, name, role, code, hasDbconf, unit);
      && r == Ok(c.FunctionArn(name)) && name in c1.functions
      && c1.functions[name].code == code && c1.functions[name].role == c.RoleArn(role)
  {
    if name in c.functions {
      UploadUpdates(s, c, name, role, code, hasDbconf, unit);
    } else {
      UploadCreates(s, c, name, role, code, hasDbconf, unit);
    }
  }

  /** Once the imports are in place and the role exists, the upload succeeds
      with the prepared directory minus app.zip as code, and the directory is
      left as clean leaves it. */
  lemma UploadAndCleanOutcome(s: Setup, w: World, path: string, prepared: Workspace.Files, name: string, role: string)
    requires role in w.cloud.roles
    requires Workspace.Clean(prepared[Workspace.ZipName := Workspace.ZipContent], UnitAt(s, path).imports, s.libraries).1.Ok?
    ensures var (w1, r) := UploadAndClean(s, w, path, prepared, name, role);
      && r == Ok(w.cloud.FunctionArn(name))
      && w1.disk == w.disk[path := Workspace.Clean(prepared[Workspace.ZipName := Workspace.ZipContent], UnitAt(s, path).imports, s.libraries).0]
      && name in w1.cloud.functions
      && w1.cloud.functions[name].code == prepared - {Workspace.ZipName}
      && w1.cloud.functions[name].role == w.cloud.RoleArn(role)
  {
    var zipped := prepared[Workspace.ZipName := Workspace.ZipContent];
    UploadSucceeds(s, w.cloud, name, role, prepared - {Workspace.ZipName}, Workspace.DbconfFile in zipped, UnitAt(s, path));
  }

  /** A unit directory whose imports all exist, that holds no glue script, no
      app.zip and no entry of an imported library, is deployed with its own
      files plus the libraries' entries as code, and is left as it was. */
  lemma DeployLambdaRestoresDirectory(s: Setup, w: World, name: string, role: string)
    requires Convention.ToPath(name).Ok? && Convention.SplitPath(Convention.ToPath(name).value).Ok?
    requires role in w.cloud.roles
    requires var path := Convention.ToPath(name).value;
      var unit := UnitAt(s, path);
      && path in w.disk
      && (forall i :: 0 <= i < |unit.imports| ==> unit.imports[i] in s.libraries)
      && Workspace.SnsGlueFile !in w.disk[path] && Workspace.S3GlueFile !in w.disk[path]
      && w.disk[path].Keys !! Workspace.Entries(unit.imports, s.libraries)
      && Workspace.ZipName !in w.disk[path]
    ensures var (w1, r) := DeployLambdaFunction(s, w, name, role);
      var files := w.disk[Convention.ToPath(name).value];
      && r == Ok(w.cloud.FunctionArn(name))
      && w1.disk == w.disk
      && name in w1.cloud.functions
      && w1.cloud.functions[name].role == w.cloud.RoleArn(role)
      && (forall k :: k in files ==> k in w1.cloud.functions[name].code && w1.cloud.functions[name].code[k] == files[k])
  {
    var path := Convention.ToPath(name).value;
    var files := w.disk[path];
    PrepareThenClean(s, files, path);
    var prepared := Prepare(s, files, path).0;
    assert DeployLambdaFunction(s, w, name, role) == UploadAndClean(s, w, path, prepared, name, role);
    UploadAndCleanOutcome(s, w, path, prepared, name, role);
    assert w.disk[path := files] == w.disk;
  }

  /** Packaging and cleaning a directory without app.zip, glue scripts or
      library entries gives it back unchanged, and the packaged directory holds
      every one of its files. */
  lemma PrepareThenClean(s: Setup, files: Workspace.Files, path: string)
    requires Convention.SplitPath(path).Ok?
    requires var unit := UnitAt(s, path);
      && (forall i :: 0 <= i < |unit.imports| ==> unit.imports[i] in s.libraries)
      && Workspace.SnsGlueFile !in files && Workspace.S3GlueFile !in files
      && files.Keys !! Workspace.Entries(unit.imports, s.libraries)
      && Workspace.ZipName !in files
    ensures var (prepared, rc) := Prepare(s, files, path);
      && rc.Ok?
      && Workspace.Clean(prepared[Workspace.ZipName := Workspace.ZipContent], UnitAt(s, path).imports, s.libraries).0 == files
      && Workspace.Clean(prepared[Workspace.ZipName := Workspace.ZipContent], UnitAt(s, path).imports, s.libraries).1.Ok?
      && (forall k :: k in files ==> k in prepared - {Workspace.ZipName} && (prepared - {Workspace.ZipName})[k] == files[k])
  {
    var unit := UnitAt(s, path);
    var ctx := Workspace.GlueContext(s.project, path, s.staging, unit.policy);
    Workspace.CleanRestores(files, unit.imports, s.libraries, ctx);
    Workspace.CopyKeeps(files, unit.imports, s.libraries, ctx, files.Keys);
    var prepared := Workspace.CopyImports(files, unit.imports, s.libraries, ctx).0;
    assert Prepare(s, files, path).0 == prepared;
    var (cleaned, r) := Workspace.Clean(prepared[Workspace.ZipName := Workspace.ZipContent], unit.imports, s.libraries);
    assert cleaned == files && r.Ok?;
  }

  /** Whatever happens, deploy_lambda_function changes only the unit
      directories, the functions of the account and the permissions of the
      function it deploys, which it leaves without any when it creates it. */
  lemma DeployLambdaFrame(s: Setup, w: World, name: string, role: string)
    ensures var (w1, r) := DeployLambdaFunction(s, w, name, role);
      && w1.cloud == w.cloud.(functions := w1.cloud.functions, permissions := w1.cloud.permissions)
      && (forall n :: n != name ==> w1.cloud.PermissionsOf(n) == w.cloud.PermissionsOf(n))
      && (name in w.cloud.functions ==> w1.cloud.permissions == w.cloud.permissions)
      && (name !in w.cloud.functions && r.Ok? ==> name in w1.cloud.functions && w1.cloud.PermissionsOf(name) == [])
  {
    if Convention.ToPath(name).Ok? {
      var path := Convention.ToPath(name).value;
      if path in w.disk && Prepare(s, w.disk[path], path).1.Ok? {
        var prepared := Prepare(s, w.disk[path], path).0;
        UploadFrame(s, w.cloud, name, role, prepared - {Workspace.ZipName},
                    Workspace.DbconfFile in prepared[Workspace.ZipName := Workspace.ZipContent], UnitAt(s, path));
      }
    }
  }

  lemma UploadFrame(s: Setup, c: CloudState, name: string, role: string, code: Workspace.Files, hasDbconf: bool, unit: UnitConfig)
    ensures var (c1, r) := Upload(s, c, name, role, code, hasDbconf, unit);
      && c1 == c.(functions := c1.functions, permissions := c1.permissions)
      && (forall n :: n != name ==> c1.PermissionsOf(n) == c.PermissionsOf(n))
      && (name in c.functions ==> c1.permissions == c.permissions)
      && (name !in c.functions && r.Ok? ==> name in c1.functions && c1.PermissionsOf(name) == [])
  {
  }

  /** What the directory held before packaging does not matter to the rest
      of deploy_lambda_function: every outcome rewrites it. */
  lemma UploadAndCleanOverwrites(s: Setup, w: World, path: string, files: Workspace.Files, prepared: Workspace.Files, name: string, role: string)
    ensures UploadAndClean(s, w.(disk := w.disk[path := files]), path, prepared, name, role)
         == UploadAndClean(s, w, path, prepared, name, role)
  {
    var zipped := prepared[Workspace.ZipName := Workspace.ZipContent];
    var cleaned := Workspace.Clean(zipped, UnitAt(s, path).imports, s.libraries).0;
    assert w.disk[path := files][path := zipped] == w.disk[path := zipped];
    assert w.disk[path := files][path := cleaned] == w.disk[path := cleaned];
  }
}
