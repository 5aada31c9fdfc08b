/** The public operations of ConventionallyDeployment as functions of the
    unit directories and the account: one unit, the units of one feature, and
    every feature of the project. */
module Pipeline {

  import opened Wrappers
  import opened Cloud
  import opened Project
  import Convention
  import Workspace
  import Roles
  import Functions
  import Links

  /** deploy_function: role, policies, function, resources, in that order; the
      first step that raises ends the run. */
  function DeployFunction(s: Setup, w: World, feature: string, action: string): (World, Result<()>)
  {
    var name := Convention.BuildName(s.project, feature, action);
    var (c1, r1) := Roles.CreateRole(s, w.cloud, name);
    if r1.Err? then (w.(cloud := c1), Err(r1.error))
    else
      var (c2, r2) := Roles.AttachPolicy(s, c1, name, None);
      if r2.Err? then (w.(cloud := c2), r2)
      else
        var (w3, r3) := Functions.DeployLambdaFunction(s, w.(cloud := c2), name, r1.value);
        if r3.Err? then (w3, Err(r3.error))
        else
          var (c4, r4) := Links.LinkResource(s, w3.cloud, name);
          (w3.(cloud := c4), r4)
  }

  /** deploy_single_function: the argument is "<feature>-<action>". */
  function DeploySingleFunction(s: Setup, w: World, arg: string): (World, Result<()>)
  {
    var (feature, action) := Convention.FunctionArgument(arg);
    DeployFunction(s, w, feature, action)
  }

  /** The units of a feature, in the order the directory lists them. */
  function DeployActions(s: Setup, w: World, feature: string, actions: seq<string>): (World, Result<()>)
    decreases |actions|
  {
    if actions == [] then (w, Ok(()))
    else
      var (w1, r1) := DeployFunction(s, w, feature, actions[0]);
      if r1.Err? then (w1, r1) else DeployActions(s, w1, feature, actions[1..])
  }

  /** The entries of a listing after "." and "..": a listing shorter than two
      entries slices to nil, on which map raises. */
  function Children(s: Setup, dir: string): Result<seq<string>>
  {
    if dir !in s.listings || |s.listings[dir]| < 2 then Err(NotADirectory(dir))
    else Ok(s.listings[dir][2..])
  }

  function FeatureDir(feature: string): string
  {
    "../" + feature
  }

  /** deploy_feature. */
  function DeployFeature(s: Setup, w: World, feature: string): (World, Result<()>)
  {
    match Children(s, FeatureDir(feature))
    case Err(e) => (w, Err(e))
    case Ok(actions) => DeployActions(s, w, feature, actions)
  }

  /** The select of deploy_all_functions: the entries not listed in
      .ignore.json, in their order. */
  function Features(entries: seq<string>, ignores: seq<string>): (r: seq<string>)
    ensures forall x :: x in r <==> x in entries && x !in ignores
    ensures |r| <= |entries|
  {
    if entries == [] then []
    else
      var rest := Features(entries[1..], ignores);
      assert forall x :: x in entries <==> x == entries[0] || x in entries[1..];
      if entries[0] in ignores then rest else [entries[0]] + rest
  }

  /** The positions in `entries` of the features, in increasing order. */
  function Kept(entries: seq<string>, ignores: seq<string>): seq<nat>
  {
    if entries == [] then []
    else
      var rest := Shift(Kept(entries[1..], ignores));
      if entries[0] in ignores then rest else [0] + rest
  }

  function Shift(m: seq<nat>): (r: seq<nat>)
    ensures |r| == |m| && forall k :: 0 <= k < |m| ==> r[k] == m[k] + 1
  {
    seq(|m|, k requires 0 <= k < |m| => m[k] + 1)
  }

  /** `r` is `entries` with the entries listed in `ignores` removed: `m`
      maps each position of `r` to the position in `entries` it comes from,
      increasing, and covers every entry that is not ignored. */
  ghost predicate Selects(m: seq<nat>, entries: seq<string>, ignores: seq<string>, r: seq<string>)
  {
    && |m| == |r|
    && (forall k :: 0 <= k < |m| ==> m[k] < |entries| && r[k] == entries[m[k]] && r[k] !in ignores)
    && (forall k, l :: 0 <= k < l < |m| ==> m[k] < m[l])
    && (forall i :: 0 <= i < |entries| && entries[i] !in ignores ==> i in m)
  }

  /** The select keeps the order of the listing and drops exactly the
      ignored entries. */
  lemma {:induction false} FeaturesInOrder(entries: seq<string>, ignores: seq<string>)
    ensures Selects(Kept(entries, ignores), entries, ignores, Features(entries, ignores))
  {
    if entries != [] {
      FeaturesInOrder(entries[1..], ignores);
      SelectsSkip(Kept(entries[1..], ignores), entries, ignores, Features(entries[1..], ignores));
      if entries[0] !in ignores {
        SelectsKeep(Shift(Kept(entries[1..], ignores)), entries, ignores, Features(entries[1..], ignores));
      }
    }
  }

  /** Positions into the tail, shifted by one, select the same entries from
      the whole listing, all but its first. */
  lemma SelectsSkip(m: seq<nat>, entries: seq<string>, ignores: seq<string>, r: seq<string>)
    requires entries != [] && Selects(m, entries[1..], ignores, r)
    ensures forall k :: 0 <= k < |m| ==> Shift(m)[k] < |entries| && r[k] == entries[Shift(m)[k]] && r[k] !in ignores
    ensures forall k, l :: 0 <= k < l < |m| ==> Shift(m)[k] < Shift(m)[l]
    ensures forall i :: 0 < i < |entries| && entries[i] !in ignores ==> i in Shift(m)
    ensures entries[0] in ignores ==> Selects(Shift(m), entries, ignores, r)
  {
    var sm := Shift(m);
    forall i | 0 < i < |entries| && entries[i] !in ignores ensures i in sm {
      assert entries[1..][i - 1] == entries[i];
      var k :| 0 <= k < |m| && m[k] == i - 1;
      assert sm[k] == i;
    }
  }

  /** A first entry that is kept comes first. */
  lemma SelectsKeep(sm: seq<nat>, entries: seq<string>, ignores: seq<string>, r: seq<string>)
    requires entries != [] && entries[0] !in ignores && |sm| == |r|
    requires forall k :: 0 <= k < |sm| ==> 0 < sm[k] < |entries| && r[k] == entries[sm[k]] && r[k] !in ignores
    requires forall k, l :: 0 <= k < l < |sm| ==> sm[k] < sm[l]
    requires forall i :: 0 < i < |entries| && entries[i] !in ignores ==> i in sm
    ensures Selects([0] + sm, entries, ignores, [entries[0]] + r)
  {
    var m := [0] + sm;
    forall k | 0 < k < |m| ensures m[k] == sm[k - 1] { }
  }

  function DeployFeatures(s: Setup, w: World, features: seq<string>): (World, Result<()>)
    decreases |features|
  {
    if features == [] then (w, Ok(()))
    else
      var (w1, r1) := DeployFeature(s, w, features[0]);
      if r1.Err? then (w1, r1) else DeployFeatures(s, w1, features[1..])
  }

  /** deploy_all_functions: .ignore.json must exist. */
  function DeployAllFunctions(s: Setup, w: World): (World, Result<()>)
  {
    if s.ignores.None? then (w, Err(NoSuchEntity(".ignore.json")))
    else
      match Children(s, "..")
      case Err(e) => (w, Err(e))
      case Ok(entries) => DeployFeatures(s, w, Features(entries, s.ignores.value))
  }

  // ---------------------------------------------------------------------------
  // Properties

  /** The argument "<feature>-<action>" deploys exactly that unit. */
  lemma SingleFunctionIsUnit(s: Setup, w: World, feature: string, action: string)
    requires Convention.Token(feature) && Convention.Token(action) && action != ""
    ensures DeploySingleFunction(s, w, feature + [Convention.NameSeparator] + action) == DeployFunction(s, w, feature, action)
  {
    Convention.FunctionArgumentOf(feature, action);
  }

  /** In staging mode a unit is deployed without creating or changing any
      role, managed policy or attachment. */
  lemma DeployFunctionStaging(s: Setup, w: World, feature: string, action: string)
    requires s.staging
    ensures SameIam(w.cloud, DeployFunction(s, w, feature, action).0.cloud)
  {
    var name := Convention.BuildName(s.project, feature, action);
    Functions.DeployLambdaFrame(s, w, name, StagingRole);
    var (w3, r3) := Functions.DeployLambdaFunction(s, w, name, StagingRole);
    if r3.Ok? {
      Links.LinkResourceStaging(s, w3.cloud, name);
    }
  }

  lemma {:induction false} DeployActionsStaging(s: Setup, w: World, feature: string, actions: seq<string>)
    requires s.staging
    ensures SameIam(w.cloud, DeployActions(s, w, feature, actions).0.cloud)
    decreases |actions|
  {
    if actions != [] {
      DeployFunctionStaging(s, w, feature, actions[0]);
      var (w1, r1) := DeployFunction(s, w, feature, actions[0]);
      if r1.Ok? {
        DeployActionsStaging(s, w1, feature, actions[1..]);
      }
    }
  }

  lemma {:induction false} DeployFeaturesStaging(s: Setup, w: World, features: seq<string>)
    requires s.staging
    ensures SameIam(w.cloud, DeployFeatures(s, w, features).0.cloud)
    decreases |features|
  {
    if features != [] {
      if Children(s, FeatureDir(features[0])).Ok? {
        DeployActionsStaging(s, w, features[0], Children(s, FeatureDir(features[0])).value);
      }
      var (w1, r1) := DeployFeature(s, w, features[0]);
      if r1.Ok? {
        DeployFeaturesStaging(s, w1, features[1..]);
      }
    }
  }

  /** A staging run over the whole project leaves every role, managed policy
      and attachment of the account as it was. */
  lemma DeployAllStaging(s: Setup, w: World)
    requires s.staging
    ensures SameIam(w.cloud, DeployAllFunctions(s, w).0.cloud)
  {
    if s.ignores.Some? && Children(s, "..").Ok? {
      DeployFeaturesStaging(s, w, Features(Children(s, "..").value, s.ignores.value));
    }
  }

  /** Outside staging mode, a unit whose directory is clean and whose imports
      exist gets, whatever link_resource then does: a role of its own name
      carrying every common policy, and a function of that name running
      under that role whose code holds every file of the directory; the
      directory is left as it was. */
  lemma DeployFunctionOutcome(s: Setup, w: World, feature: string, action: string)
    requires !s.staging && s.commonPolicies.Some?
    requires var name := Convention.BuildName(s.project, feature, action);
      && Convention.ToPath(name).Ok? && Convention.SplitPath(Convention.ToPath(name).value).Ok?
      && (name in w.cloud.policies ==> WellFormedPolicy(w.cloud.policies[name]))
    requires var path := Convention.ToPath(Convention.BuildName(s.project, feature, action)).value;
      var unit := UnitAt(s, path);
      && path in w.disk
      && (forall i :: 0 <= i < |unit.imports| ==> unit.imports[i] in s.libraries)
      && Workspace.SnsGlueFile !in w.disk[path] && Workspace.S3GlueFile !in w.disk[path]
      && w.disk[path].Keys !! Workspace.Entries(unit.imports, s.libraries)
      && Workspace.ZipName !in w.disk[path]
    ensures var (w1, r) := DeployFunction(s, w, feature, action);
      var name := Convention.BuildName(s.project, feature, action);
      var files := w.disk[Convention.ToPath(name).value];
      && w1.disk == w.disk
      && name in w1.cloud.roles
      && Roles.AttachmentsOf(name, s.commonPolicies.value) <= w1.cloud.attachments
      && name in w1.cloud.functions
      && w1.cloud.functions[name].role == w.cloud.RoleArn(name)
      && (forall k :: k in files ==> k in w1.cloud.functions[name].code && w1.cloud.functions[name].code[k] == files[k])
  {
    var name := Convention.BuildName(s.project, feature, action);
    var path := Convention.ToPath(name).value;
    Roles.CreateRoleOutcome(s, w.cloud, name);
    var c1 := Roles.CreateRole(s, w.cloud, name).0;
    Roles.AttachPolicyOutcome(s, c1, name, None);
    var c2 := Roles.AttachPolicy(s, c1, name, None).0;
    assert c2 == Roles.AfterAttachPolicy(s, c1, name, None, path);
    assert name in c2.roles && Roles.AttachmentsOf(name, s.commonPolicies.value) <= c2.attachments;
    var w2 := w.(cloud := c2);
    Functions.DeployLambdaRestoresDirectory(s, w2, name, name);
    Functions.DeployLambdaFrame(s, w2, name, name);
    var (w3, r3) := Functions.DeployLambdaFunction(s, w2, name, name);
    Links.LinkResourceFrame(s, w3.cloud, name);
  }

  /** get_policy raises for a function without a resource-based policy, and a
      function deploy_lambda_function creates has none, so a unit deployed for
      the first time whose first resource key is S3 with an event-source
      bucket fails in link_resource. */
  lemma DeployFunctionFirstEventSource(s: Setup, w: World, feature: string, action: string)
    requires var name := Convention.BuildName(s.project, feature, action);
      && name !in w.cloud.functions && Convention.ToPath(name).Ok?
      && var ds := UnitAt(s, Convention.ToPath(name).value).policy;
         ds != [] && ds[0].S3Decl? && Links.LastEventSource(ds[0].buckets).Some?
    ensures DeployFunction(s, w, feature, action).1.Err?
  {
    var name := Convention.BuildName(s.project, feature, action);
    var (c1, r1) := Roles.CreateRole(s, w.cloud, name);
    if r1.Ok? {
      assert c1.functions == w.cloud.functions;
      Roles.AttachPolicyFrame(s, c1, name, None);
      var (c2, r2) := Roles.AttachPolicy(s, c1, name, None);
      if r2.Ok? {
        var w2 := w.(cloud := c2);
        Functions.DeployLambdaFrame(s, w2, name, r1.value);
        var (w3, r3) := Functions.DeployLambdaFunction(s, w2, name, r1.value);
        if r3.Ok? {
          var ds := UnitAt(s, Convention.ToPath(name).value).policy;
          Links.LinkBucketsNoPolicy(s, w3.cloud, name, ds[0].buckets);
          assert Links.LinkDeclaration(s, w3.cloud, name, ds[0]).1.Err?;
          assert Links.LinkDeclarations(s, w3.cloud, name, ds).1.Err?;
        }
      }
    }
  }
}
