/** ConventionallyDeployment as an object: the configuration it reads is
    fixed for a run, while the unit directories and the account change with
    every step. Each method does its work step by step, as the script does,
    and is proved to end in the state and with the outcome that the function
    of the same name in Pipeline, Roles, Functions, Links or Workspace
    describes. */
module Deploy {

  import opened Wrappers
  import opened PolicyDoc
  import opened Cloud
  import opened Project
  import Convention
  import Settings
  import Resources
  import Workspace
  import Glue
  import Roles
  import Functions
  import Links
  import Pipeline

  class Deployment {

    /** The project, the mode and the files the run reads. */
    const setup: Setup
    /** The unit directories. */
    var disk: map<string, Workspace.Files>
    /** The provider account behind the adapter. */
    var cloud: CloudState

    /** The state as one value. */
    function State(): World
      reads this
    {
      World(disk, cloud)
    }

    constructor (setup: Setup, disk: map<string, Workspace.Files>, cloud: CloudState)
      ensures this.setup == setup && this.disk == disk && this.cloud == cloud
    {
      this.setup := setup;
      this.disk := disk;
      this.cloud := cloud;
    }

    // -------------------------------------------------------------------------
    // Public operations

    /** deploy_single_function. */
    method DeploySingleFunction(arg: string) returns (r: Result<()>)
      modifies this
      ensures (State(), r) == Pipeline.DeploySingleFunction(setup, old(State()), arg)
    {
      var (feature, action) := Convention.FunctionArgument(arg);
      r := DeployFunction(feature, action);
    }

    /** deploy_feature: the units in the order the directory lists them,
        stopping at the first one that fails. */
    method DeployFeature(feature: string) returns (r: Result<()>)
      modifies this
      ensures (State(), r) == Pipeline.DeployFeature(setup, old(State()), feature)
    {
      var dir := Pipeline.FeatureDir(feature);
      if dir !in setup.listings || |setup.listings[dir]| < 2 {
        return Err(NotADirectory(dir));
      }
      var actions := setup.listings[dir][2..];
      var i := 0;
      while i < |actions|
        invariant 0 <= i <= |actions|
        invariant Pipeline.DeployActions(setup, old(State()), feature, actions)
               == Pipeline.DeployActions(setup, State(), feature, actions[i..])
      {
        assert actions[i..][1..] == actions[i + 1..];
        r := DeployFunction(feature, actions[i]);
        if r.Err? {
          return;
        }
        i := i + 1;
      }
      r := Ok(());
    }

    /** deploy_all_functions: the top-level entries not listed in
        .ignore.json, each deployed as a feature. */
    method DeployAllFunctions() returns (r: Result<()>)
      modifies this
      ensures (State(), r) == Pipeline.DeployAllFunctions(setup, old(State()))
    {
      if setup.ignores.None? {
        return Err(NoSuchEntity(".ignore.json"));
      }
      if ".." !in setup.listings || |setup.listings[".."]| < 2 {
        return Err(NotADirectory(".."));
      }
      var features := SelectFeatures(setup.listings[".."][2..], setup.ignores.value);
      var i := 0;
      while i < |features|
        invariant 0 <= i <= |features|
        invariant Pipeline.DeployFeatures(setup, old(State()), features)
               == Pipeline.DeployFeatures(setup, State(), features[i..])
      {
        assert features[i..][1..] == features[i + 1..];
        r := DeployFeature(features[i]);
        if r.Err? {
          return;
        }
        i := i + 1;
      }
      r := Ok(());
    }

    /** deploy_function. */
    method DeployFunction(feature: string, action: string) returns (r: Result<()>)
      modifies this
      ensures (State(), r) == Pipeline.DeployFunction(setup, old(State()), feature, action)
    {
      var name := Convention.BuildName(setup.project, feature, action);
      var role := CreateRole(name);
      if role.Err? {
        return Err(role.error);
      }
      r := AttachPolicy(name, None);
      if r.Err? {
        return;
      }
      var arn := DeployLambdaFunction(name, role.value);
      if arn.Err? {
        return Err(arn.error);
      }
      r := LinkResource(name);
    }

    // -------------------------------------------------------------------------
    // create_role and attach_policy

    method CreateRole(name: string) returns (r: Result<string>)
      modifies this
      ensures (cloud, r) == Roles.CreateRole(setup, old(cloud), name) && disk == old(disk)
    {
      if setup.staging {
        return Ok(StagingRole);
      }
      if cloud.LookupRole(name).Ok? {
        return Ok(name);
      }
      var (c1, created) := cloud.CreateRole(name, AssumeRolePolicyDoc());
      cloud := c1;
      r := if created.Ok? then Ok(name) else Err(created.error);
    }

    /** attach_policy: the common policies one by one, the unit's own policy
        when the document has statements, then the VPC access policy. */
    method AttachPolicy(name: string, doc: Option<PolicyDocument>) returns (r: Result<()>)
      modifies this
      ensures (cloud, r) == Roles.AttachPolicy(setup, old(cloud), name, doc) && disk == old(disk)
    {
      if setup.staging {
        return Ok(());
      }
      if setup.commonPolicies.None? {
        return Err(NoSuchEntity(".policy.json"));
      }
      var commons := setup.commonPolicies.value;
      var i := 0;
      while i < |commons|
        invariant 0 <= i <= |commons| && disk == old(disk)
        invariant Roles.AttachAll(old(cloud), name, commons) == Roles.AttachAll(cloud, name, commons[i..])
      {
        assert commons[i..][1..] == commons[i + 1..];
        var (c1, attached) := cloud.AttachRolePolicy(name, commons[i]);
        cloud := c1;
        if attached.Err? {
          return attached;
        }
        i := i + 1;
      }
      if Roles.HasStatements(doc) {
        var arn := UpsertPolicy(name, doc.value);
        if arn.Err? {
          return Err(arn.error);
        }
        var (c2, attached) := cloud.AttachRolePolicy(name, arn.value);
        cloud := c2;
        if attached.Err? {
          return attached;
        }
      }
      var path := Convention.ToPath(name);
      if path.Err? {
        return Err(path.error);
      }
      r := Ok(());
      if |UnitAt(setup, path.value).vpc| > 0 {
        var (c1, attached) := cloud.AttachRolePolicy(name, VpcAccessPolicyArn);
        cloud, r := c1, attached;
      }
    }

    /** The begin/rescue block of attach_policy. */
    method UpsertPolicy(name: string, doc: PolicyDocument) returns (r: Result<string>)
      modifies this
      ensures (cloud, r) == Roles.UpsertPolicy(old(cloud), name, doc) && disk == old(disk)
    {
      var listed := cloud.ListPolicyVersions(name);
      if listed.Err? {
        var (c1, created) := cloud.CreatePolicy(name, doc);
        cloud, r := c1, created;
        return;
      }
      var written := PruneVersions(name, listed.value);
      if written.Ok? {
        var (c1, created) := cloud.CreatePolicyVersion(name, doc);
        cloud, written := c1, created;
      }
      if written.Ok? {
        return Ok(cloud.PolicyArn(name));
      }
      var (c2, created) := cloud.CreatePolicy(name, doc);
      cloud, r := c2, created;
    }

    /** The deletion of every non-default version. */
    method PruneVersions(name: string, vs: seq<PolicyVersion>) returns (r: Result<()>)
      modifies this
      ensures (cloud, r) == Roles.PruneVersions(old(cloud), name, vs) && disk == old(disk)
    {
      var i := 0;
      while i < |vs|
        invariant 0 <= i <= |vs| && disk == old(disk)
        invariant Roles.PruneVersions(old(cloud), name, vs) == Roles.PruneVersions(cloud, name, vs[i..])
      {
        assert vs[i..][1..] == vs[i + 1..];
        if !vs[i].isDefault {
          var (c1, deleted) := cloud.DeletePolicyVersion(name, vs[i].id);
          cloud := c1;
          if deleted.Err? {
            return deleted;
          }
        }
        i := i + 1;
      }
      r := Ok(());
    }

    // -------------------------------------------------------------------------
    // deploy_lambda_function

    method DeployLambdaFunction(name: string, role: string) returns (r: Result<string>)
      modifies this
      ensures (State(), r) == Functions.DeployLambdaFunction(setup, old(State()), name, role)
    {
      var path := Convention.ToPath(name);
      if path.Err? {
        return Err(path.error);
      }
      var p := path.value;
      if p !in disk {
        return Err(NotADirectory(p));
      }
      var copied := CopyImportsLibs(p);
      if copied.Err? {
        return Err(copied.error);
      }
      Functions.UploadAndCleanOverwrites(setup, old(State()), p, disk[p], disk[p], name, role);
      r := UploadAndClean(p, name, role);
    }

    /** The rest of deploy_lambda_function once the imports are in place:
        write app.zip, upload, clean. */
    method UploadAndClean(path: string, name: string, role: string) returns (r: Result<string>)
      requires path in disk
      modifies this
      ensures (State(), r) == Functions.UploadAndClean(setup, old(State()), path, old(disk)[path], name, role)
    {
      var prepared := disk[path];
      var zipped := prepared[Workspace.ZipName := Workspace.ZipContent];
      ghost var w0 := State();
      ghost var up := Functions.Upload(setup, w0.cloud, name, role, prepared - {Workspace.ZipName}, Workspace.DbconfFile in zipped, UnitAt(setup, path));
      disk := disk[path := zipped];
      r := Upload(name, role, prepared - {Workspace.ZipName}, Workspace.DbconfFile in zipped, UnitAt(setup, path));
      assert (cloud, r) == up;
      if r.Err? {
        assert State() == World(w0.disk[path := zipped], up.0);
        return;
      }
      ghost var clean := Workspace.Clean(zipped, UnitAt(setup, path).imports, setup.libraries);
      var cleaned := Clean(path);
      assert disk == w0.disk[path := clean.0] && cleaned == clean.1;
      if cleaned.Err? {
        r := Err(cleaned.error);
      }
    }

    /** get_function, then create_function or update_function_code and
        update_function_configuration. */
    method Upload(name: string, role: string, code: Workspace.Files, hasDbconf: bool, unit: UnitConfig)
      returns (r: Result<string>)
      modifies this
      ensures (cloud, r) == Functions.Upload(setup, old(cloud), name, role, code, hasDbconf, unit) && disk == old(disk)
    {
      if cloud.GetFunction(name).None? {
        var arn := cloud.LookupRole(role);
        if arn.Err? {
          return Err(arn.error);
        }
        var (c1, created) := cloud.CreateFunction(name, Functions.NewFunction(setup, arn.value, code, unit));
        cloud, r := c1, created;
        return;
      }
      var (c1, updated) := cloud.UpdateFunctionCode(name, code);
      cloud := c1;
      if updated.Err? {
        return updated;
      }
      var arn := cloud.LookupRole(role);
      if arn.Err? {
        return Err(arn.error);
      }
      var description := Settings.Description(hasDbconf, name, Settings.DatabaseConfig(setup.databases, setup.staging));
      var (c2, configured) := cloud.UpdateFunctionConfiguration(name, arn.value, description, Settings.Resolve(unit.lambda));
      cloud, r := c2, configured;
    }

    /** What the glue customisation of the unit at `path` reads. */
    function Context(path: string): Workspace.GlueContext
    {
      Workspace.GlueContext(setup.project, path, setup.staging, UnitAt(setup, path).policy)
    }

    /** copy_imports_libs: the libraries of .import.json, in order. */
    method CopyImportsLibs(path: string) returns (r: Result<()>)
      requires path in disk
      modifies this
      ensures var (files, copied) := Workspace.CopyImports(old(disk)[path], UnitAt(setup, path).imports, setup.libraries, Context(path));
        disk == old(disk)[path := files] && r == copied && cloud == old(cloud)
    {
      var imports := UnitAt(setup, path).imports;
      var i := 0;
      while i < |imports|
        invariant 0 <= i <= |imports|
        invariant path in disk && disk == old(disk)[path := disk[path]] && cloud == old(cloud)
        invariant Workspace.CopyImports(old(disk)[path], imports, setup.libraries, Context(path))
               == Workspace.CopyImports(disk[path], imports[i..], setup.libraries, Context(path))
      {
        assert imports[i..][1..] == imports[i + 1..];
        var imported := ImportLibrary(path, imports[i]);
        if imported.Err? {
          return imported;
        }
        i := i + 1;
      }
      r := Ok(());
    }

    /** One import: cp_r of the library's visible entries, then its
        customisation when the script has one. */
    method ImportLibrary(path: string, lib: string) returns (r: Result<()>)
      requires path in disk
      modifies this
      ensures var (files, imported) := Workspace.ImportLibrary(old(disk)[path], lib, setup.libraries, Context(path));
        path in disk && disk == old(disk)[path := files] && r == imported && cloud == old(cloud)
    {
      ghost var copied := if lib in setup.libraries then disk[path] + Workspace.Visible(setup.libraries[lib]) else disk[path];
      if lib in setup.libraries {
        disk := disk[path := disk[path] + Workspace.Visible(setup.libraries[lib])];
      } else {
        assert disk == disk[path := disk[path]];
      }
      assert disk == old(disk)[path := copied] && disk[path] == copied;
      if lib == Workspace.SnsGlueLibrary {
        r := CustomizeSnsGlue(path);
      } else if lib == Workspace.S3GlueLibrary {
        CustomizeS3Glue(path);
        r := Ok(());
      } else {
        r := Ok(());
      }
    }

    /** custormize_sns_glue: rewrites sns_glue.py when the unit has one and
        declares topics. */
    method CustomizeSnsGlue(path: string) returns (r: Result<()>)
      requires path in disk
      modifies this
      ensures var customized := Workspace.CustomizeSns(old(disk)[path], Context(path));
        && path in disk && cloud == old(cloud)
        && (customized.Ok? ==> disk == old(disk)[path := customized.value] && r == Ok(()))
        && (customized.Err? ==> disk == old(disk) && r == Err(customized.error))
    {
      var topics := Resources.SnsTopics(UnitAt(setup, path).policy);
      if Workspace.SnsGlueFile in disk[path] && topics.Some? {
        var code := Glue.CustomizeSnsGlue(disk[path][Workspace.SnsGlueFile], setup.project, path, topics.value);
        if code.Err? {
          return Err(code.error);
        }
        disk := disk[path := disk[path][Workspace.SnsGlueFile := code.value]];
      } else {
        assert disk == disk[path := disk[path]];
      }
      r := Ok(());
    }

    /** custormize_s3_glue: rewrites s3_glue.py when the unit has one and
        declares buckets. */
    method CustomizeS3Glue(path: string)
      requires path in disk
      modifies this
      ensures path in disk && cloud == old(cloud)
      ensures disk == old(disk)[path := Workspace.CustomizeS3(old(disk)[path], Context(path))]
    {
      var buckets := Resources.S3Buckets(UnitAt(setup, path).policy);
      if Workspace.S3GlueFile in disk[path] && buckets.Some? {
        var code := Glue.CustomizeS3Glue(disk[path][Workspace.S3GlueFile], setup.staging, buckets.value);
        disk := disk[path := disk[path][Workspace.S3GlueFile := code]];
      } else {
        assert disk == disk[path := disk[path]];
      }
    }

    /** clean: app.zip, then the entries of every imported library. */
    method Clean(path: string) returns (r: Result<()>)
      requires path in disk
      modifies this
      ensures var (files, cleaned) := Workspace.Clean(old(disk)[path], UnitAt(setup, path).imports, setup.libraries);
        disk == old(disk)[path := files] && r == cleaned && cloud == old(cloud)
    {
      if Workspace.ZipName !in disk[path] {
        return Err(NoSuchEntity(Workspace.ZipName));
      }
      disk := disk[path := disk[path] - {Workspace.ZipName}];
      var imports := UnitAt(setup, path).imports;
      var i := 0;
      while i < |imports|
        invariant 0 <= i <= |imports|
        invariant path in disk && disk == old(disk)[path := disk[path]] && cloud == old(cloud)
        invariant Workspace.Clean(old(disk)[path], imports, setup.libraries)
               == Workspace.RemoveLibraries(disk[path], imports[i..], setup.libraries)
      {
        assert imports[i..][1..] == imports[i + 1..];
        if imports[i] !in setup.libraries {
          return Err(NoSuchEntity("./deliver/" + imports[i]));
        }
        disk := disk[path := disk[path] - setup.libraries[imports[i]].Keys];
        i := i + 1;
      }
      r := Ok(());
    }

    // -------------------------------------------------------------------------
    // link_resource

    /** link_resource: one statement per key of .policy.json, pushed in
        order, then attach_policy with them. */
    method LinkResource(name: string) returns (r: Result<()>)
      modifies this
      ensures (cloud, r) == Links.LinkResource(setup, old(cloud), name) && disk == old(disk)
    {
      var path := Convention.ToPath(name);
      if path.Err? {
        return Err(path.error);
      }
      var statements := CollectStatements(name, UnitAt(setup, path.value).policy);
      if statements.Err? {
        return Err(statements.error);
      }
      r := AttachPolicy(name, Some(PolicyDocument(PolicyLanguageVersion, statements.value)));
    }

    /** The loop of link_resource: one statement per key, pushed in order. */
    method CollectStatements(name: string, policy: Resources.ResourcePolicy) returns (r: Result<seq<Statement>>)
      modifies this
      ensures (cloud, r) == Links.LinkDeclarations(setup, old(cloud), name, policy) && disk == old(disk)
    {
      var statements: seq<Statement> := [];
      assert policy[0..] == policy;
      Links.PrependedNothing(Links.LinkDeclarations(setup, cloud, name, policy));
      var i := 0;
      while i < |policy|
        invariant 0 <= i <= |policy| && disk == old(disk)
        invariant Links.LinkDeclarations(setup, old(cloud), name, policy)
               == Links.Prepended(statements, Links.LinkDeclarations(setup, cloud, name, policy[i..]))
      {
        assert policy[i..][1..] == policy[i + 1..];
        ghost var before := cloud;
        var statement := LinkDeclaration(name, policy[i]);
        if statement.Err? {
          return Err(statement.error);
        }
        assert Links.LinkDeclarations(setup, before, name, policy[i..])
            == (var (c2, r2) := Links.LinkDeclarations(setup, cloud, name, policy[i + 1..]);
                (c2, if r2.Err? then r2 else Ok([statement.value] + r2.value)));
        Links.PrependedStep(statements, statement.value, Links.LinkDeclarations(setup, cloud, name, policy[i + 1..]));
        statements := statements + [statement.value];
        i := i + 1;
      }
      assert statements + [] == statements;
      r := Ok(statements);
    }

    /** The send of link_resource_<key>. */
    method LinkDeclaration(sender: string, d: Resources.Declaration) returns (r: Result<Statement>)
      modifies this
      ensures (cloud, r) == Links.LinkDeclaration(setup, old(cloud), sender, d) && disk == old(disk)
    {
      match d
      case S3Decl(bs) => r := LinkResourceS3(sender, bs);
      case SnsDecl(ts) => r := LinkResourceSns(sender, ts);
      case DynamoDbDecl(ts) => r := LinkResourceDynamodb(ts);
      case SqsDecl(qs) => r := LinkResourceSqs(qs);
      case Unsupported(key) => r := Err(UnsupportedKind(key));
    }

    /** link_resource_s3. */
    method LinkResourceS3(sender: string, bs: seq<Resources.BucketDecl>) returns (r: Result<Statement>)
      modifies this
      ensures (cloud, r) == Links.LinkS3(setup, old(cloud), sender, bs) && disk == old(disk)
    {
      var bucketArns: seq<string> := [];
      assert bs[0..] == bs;
      Links.PrependedNothing(Links.LinkBuckets(setup, cloud, sender, bs));
      var i := 0;
      while i < |bs|
        invariant 0 <= i <= |bs| && disk == old(disk)
        invariant Links.LinkBuckets(setup, old(cloud), sender, bs)
               == Links.Prepended(bucketArns, Links.LinkBuckets(setup, cloud, sender, bs[i..]))
      {
        assert bs[i..][1..] == bs[i + 1..];
        ghost var before := cloud;
        var arn := LinkBucket(sender, bs[i]);
        if arn.Err? {
          return Err(arn.error);
        }
        assert Links.LinkBuckets(setup, before, sender, bs[i..])
            == (var (c2, r2) := Links.LinkBuckets(setup, cloud, sender, bs[i + 1..]);
                (c2, if r2.Err? then r2 else Ok([arn.value] + r2.value)));
        Links.PrependedStep(bucketArns, arn.value, Links.LinkBuckets(setup, cloud, sender, bs[i + 1..]));
        bucketArns := bucketArns + [arn.value];
        i := i + 1;
      }
      assert bucketArns + [] == bucketArns;
      var (c1, sid) := cloud.NewSid();
      cloud := c1;
      r := Ok(S3PolicyDoc(sid, bucketArns));
    }

    /** One bucket of link_resource_s3. */
    method LinkBucket(sender: string, b: Resources.BucketDecl) returns (r: Result<string>)
      modifies this
      ensures (cloud, r) == Links.LinkBucket(setup, old(cloud), sender, b) && disk == old(disk)
    {
      var bucket := Convention.BucketName(setup.staging, b.name);
      cloud := cloud.CreateBucket(bucket).0;
      if b.isEventSource.Some? {
        var policy := cloud.GetPolicy(sender);
        if policy.Err? {
          return Err(policy.error);
        }
        var ps := policy.value;
        ghost var start := cloud;
        var j := 0;
        while j < |ps|
          invariant 0 <= j <= |ps| && disk == old(disk)
          invariant Links.ClearPermissions(start, sender, ps) == Links.ClearPermissions(cloud, sender, ps[j..])
        {
          assert ps[j..][1..] == ps[j + 1..];
          var (c1, removed) := cloud.RemovePermission(sender, ps[j].statementId);
          cloud := c1;
          if removed.Err? {
            return Err(removed.error);
          }
          j := j + 1;
        }
        var (c2, sid) := cloud.NewSid();
        var (c3, added) := c2.AddPermission(S3LambdaPermission(sid, sender, Links.BucketArn(bucket)));
        cloud := c3;
        if added.Err? {
          return Err(added.error);
        }
      }
      r := Ok(Links.BucketObjects(bucket));
    }

    /** link_resource_sns. */
    method LinkResourceSns(sender: string, ts: seq<string>) returns (r: Result<Statement>)
      modifies this
      ensures (cloud, r) == Links.LinkSns(setup, old(cloud), sender, ts) && disk == old(disk)
    {
      var convention := Convention.Split(sender);
      if convention.Err? {
        return Err(convention.error);
      }
      var feature := convention.value.feature;
      var topicArns: seq<string> := [];
      assert ts[0..] == ts;
      Links.PrependedNothing(Links.LinkTopics(setup, cloud, feature, ts));
      var i := 0;
      while i < |ts|
        invariant 0 <= i <= |ts| && disk == old(disk)
        invariant Links.LinkTopics(setup, old(cloud), feature, ts)
               == Links.Prepended(topicArns, Links.LinkTopics(setup, cloud, feature, ts[i..]))
      {
        assert ts[i..][1..] == ts[i + 1..];
        ghost var before := cloud;
        var linker := Convention.BuildName(setup.project, feature, ts[i]);
        var (c1, created) := cloud.CreateTopic(linker);
        cloud := c1;
        if created.Err? {
          assert Links.LinkTopics(setup, before, feature, ts[i..]) == (cloud, Err(created.error));
          return Err(created.error);
        }
        var arn := created.value;
        if cloud.GetFunction(linker).Some? {
          var c2 := cloud.Subscribe(arn, cloud.FunctionArn(linker));
          var (c3, sid) := c2.NewSid();
          cloud := c3.AddPermission(SnsLambdaPermission(sid, linker, arn)).0;
        }
        assert (cloud, Ok(arn)) == Links.LinkTopic(setup, before, feature, ts[i]);
        Links.PrependedStep(topicArns, arn, Links.LinkTopics(setup, cloud, feature, ts[i + 1..]));
        topicArns := topicArns + [arn];
        i := i + 1;
      }
      assert topicArns + [] == topicArns;
      var (c4, sid) := cloud.NewSid();
      cloud := c4;
      r := Ok(SnsPolicyDoc(sid, topicArns));
    }

    /** link_resource_dynamodb. */
    method LinkResourceDynamodb(ts: seq<string>) returns (r: Result<Statement>)
      modifies this
      ensures (cloud, r) == Links.LinkDynamoDb(old(cloud), ts) && disk == old(disk)
    {
      var tableArns: seq<string> := [];
      var i := 0;
      while i < |ts|
        invariant 0 <= i <= |ts|
        invariant |tableArns| == i && forall k :: 0 <= k < i ==> ts[k] in cloud.tables && tableArns[k] == cloud.tables[ts[k]]
      {
        var described := cloud.DescribeTable(ts[i]);
        if described.Err? {
          TableArnsFirstMissing(cloud, ts, i);
          return Err(described.error);
        }
        tableArns := tableArns + [described.value];
        i := i + 1;
      }
      assert Links.TableArns(cloud, ts).value == tableArns;
      var (c1, sid) := cloud.NewSid();
      cloud := c1;
      r := Ok(DynamoPolicyDoc(sid, tableArns));
    }

    /** link_resource_sqs: each queue's entry in .resource.json is read before
        the queue is created. */
    method LinkResourceSqs(qs: seq<string>) returns (r: Result<Statement>)
      modifies this
      ensures (cloud, r) == Links.LinkSqs(setup, old(cloud), qs) && disk == old(disk)
    {
      var queueArns: seq<string> := [];
      assert qs[0..] == qs;
      Links.PrependedNothing(Links.LinkQueues(setup, cloud, qs));
      var i := 0;
      while i < |qs|
        invariant 0 <= i <= |qs| && disk == old(disk)
        invariant Links.LinkQueues(setup, old(cloud), qs)
               == Links.Prepended(queueArns, Links.LinkQueues(setup, cloud, qs[i..]))
      {
        assert qs[i..][1..] == qs[i + 1..];
        if qs[i] !in setup.queueSettings {
          return Err(MissingSetting("sqs " + qs[i]));
        }
        ghost var before := cloud;
        var (c1, created) := cloud.CreateQueue(qs[i]);
        cloud := c1;
        if created.Err? {
          assert Links.LinkQueues(setup, before, qs[i..]) == (cloud, Err(created.error));
          return Err(created.error);
        }
        var arn := created.value;
        Links.PrependedStep(queueArns, arn, Links.LinkQueues(setup, c1, qs[i + 1..]));
        queueArns := queueArns + [arn];
        i := i + 1;
      }
      assert queueArns + [] == queueArns;
      var (c2, sid) := cloud.NewSid();
      cloud := c2;
      r := Ok(SqsPolicyDoc(sid, queueArns));
    }
  }

  /** The first table describe_table does not find decides the error. */
  lemma {:induction false} TableArnsFirstMissing(c: CloudState, ts: seq<string>, i: nat)
    requires i < |ts| && ts[i] !in c.tables
    requires forall k :: 0 <= k < i ==> ts[k] in c.tables
    ensures Links.TableArns(c, ts) == Err(NoSuchEntity("table " + ts[i]))
    decreases i
  {
    if i > 0 {
      TableArnsFirstMissing(c, ts[1..], i - 1);
    }
  }

  /** The select of deploy_all_functions, one entry at a time. */
  method SelectFeatures(entries: seq<string>, ignores: seq<string>) returns (features: seq<string>)
    ensures features == Pipeline.Features(entries, ignores)
  {
    features := [];
    var i := |entries|;
    while i > 0
      invariant 0 <= i <= |entries|
      invariant features == Pipeline.Features(entries[i..], ignores)
    {
      i := i - 1;
      assert entries[i..][1..] == entries[i + 1..];
      if entries[i] !in ignores {
        features := [entries[i]] + features;
      }
    }
    assert entries[0..] == entries;
  }
}
