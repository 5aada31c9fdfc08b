/** The provider account the deployment works against, reduced to what the
    script reads and changes: execution roles and their attached policies,
    the per-unit managed policies and their versions, functions with their
    configuration, code and resource-based permissions, topics and their
    subscriptions, buckets, queues, and the tables that already exist. Each
    provider call is a transition on a CloudState value. Random statement ids
    are drawn from a counter held in the state. */
module Cloud {

  import opened Wrappers
  import opened PolicyDoc
  import Settings
  import Workspace

  /** The parsed .vpc.json of a unit (subnet and security group ids). */
  type VpcConfig = map<string, seq<string>>

  const Handler := "lambda_function.lambda_handler"
  const Runtime := "python2.7"
  const VpcAccessPolicyArn := "arn:aws:iam::aws:policy/service-role/AWSLambdaVPCAccessExecutionRole"
  /** The most versions a managed policy may have. */
  const MaxPolicyVersions := 5

  /** What the provider keeps about a function. */
  datatype FunctionConfig = FunctionConfig(
    role: string, handler: string, runtime: string, description: string,
    settings: Settings.FunctionSettings, code: Workspace.Files, vpc: Option<VpcConfig>)

  datatype PolicyVersion = PolicyVersion(id: nat, document: PolicyDocument, isDefault: bool)

  /** A customer-managed policy: its versions and the number the next one gets. */
  datatype ManagedPolicy = ManagedPolicy(versions: seq<PolicyVersion>, nextId: nat)

  datatype Attachment = Attachment(role: string, policyArn: string)

  datatype Subscription = Subscription(topicArn: string, endpoint: string)

  // ---------------------------------------------------------------------------
  // Policy versions

  /** The default versions among `vs`, in order. */
  function Defaults(vs: seq<PolicyVersion>): (r: seq<PolicyVersion>)
    ensures |r| <= |vs| && forall i :: 0 <= i < |r| ==> r[i].isDefault && r[i] in vs
  {
    if vs == [] then [] else (if vs[0].isDefault then [vs[0]] else []) + Defaults(vs[1..])
  }

  /** `vs` without the version numbered `id`. */
  function RemoveVersion(vs: seq<PolicyVersion>, id: nat): (r: seq<PolicyVersion>)
    ensures forall i :: 0 <= i < |r| ==> r[i] in vs && r[i].id != id
  {
    if vs == [] then [] else (if vs[0].id == id then [] else [vs[0]]) + RemoveVersion(vs[1..], id)
  }

  /** Every version of `vs` made non-default. */
  function Demote(vs: seq<PolicyVersion>): (r: seq<PolicyVersion>)
    ensures |r| == |vs| && forall i :: 0 <= i < |vs| ==> r[i] == vs[i].(isDefault := false)
  {
    seq(|vs|, i requires 0 <= i < |vs| => vs[i].(isDefault := false))
  }

  predicate DistinctIds(vs: seq<PolicyVersion>)
  {
    forall i, j :: 0 <= i < j < |vs| ==> vs[i].id != vs[j].id
  }

  /** What the provider guarantees of a managed policy: at least one and at
      most MaxPolicyVersions versions with distinct numbers below nextId,
      exactly one of them the default. */
  predicate WellFormedPolicy(p: ManagedPolicy)
  {
    && 1 <= |p.versions| <= MaxPolicyVersions
    && DistinctIds(p.versions)
    && (forall i :: 0 <= i < |p.versions| ==> p.versions[i].id < p.nextId)
    && |Defaults(p.versions)| == 1
  }

  lemma {:induction false} RemoveVersionAppend(a: seq<PolicyVersion>, b: seq<PolicyVersion>, id: nat)
    ensures RemoveVersion(a + b, id) == RemoveVersion(a, id) + RemoveVersion(b, id)
    decreases |a|
  {
    if a == [] {
      assert a + b == b;
    } else {
      assert (a + b)[1..] == a[1..] + b;
      RemoveVersionAppend(a[1..], b, id);
    }
  }

  lemma {:induction false} RemoveAbsentVersion(vs: seq<PolicyVersion>, id: nat)
    requires forall i :: 0 <= i < |vs| ==> vs[i].id != id
    ensures RemoveVersion(vs, id) == vs
    decreases |vs|
  {
    if vs != [] {
      RemoveAbsentVersion(vs[1..], id);
    }
  }

  // ---------------------------------------------------------------------------
  // Permissions

  /** `ps` without the statements whose id is `sid`. */
  function RemoveStatement(ps: seq<Permission>, sid: string): (r: seq<Permission>)
    ensures forall i :: 0 <= i < |r| ==> r[i] in ps && r[i].statementId != sid
  {
    if ps == [] then [] else (if ps[0].statementId == sid then [] else [ps[0]]) + RemoveStatement(ps[1..], sid)
  }

  predicate HasStatement(ps: seq<Permission>, sid: string)
  {
    exists i :: 0 <= i < |ps| && ps[i].statementId == sid
  }

  predicate DistinctStatements(ps: seq<Permission>)
  {
    forall i, j :: 0 <= i < j < |ps| ==> ps[i].statementId != ps[j].statementId
  }

  lemma {:induction false} RemoveAbsentStatement(ps: seq<Permission>, sid: string)
    requires !HasStatement(ps, sid)
    ensures RemoveStatement(ps, sid) == ps
    decreases |ps|
  {
    if ps != [] {
      RemoveAbsentStatement(ps[1..], sid);
    }
  }

  // ---------------------------------------------------------------------------
  // The account

  datatype CloudState = CloudState(
    region: string,
    account: string,
    roles: map<string, TrustDocument>,
    policies: map<string, ManagedPolicy>,
    attachments: set<Attachment>,
    functions: map<string, FunctionConfig>,
    permissions: map<string, seq<Permission>>,
    topics: set<string>,
    subscriptions: set<Subscription>,
    buckets: set<string>,
    queues: set<string>,
    tables: map<string, string>,
    /** The names the provider refuses for a new bucket, topic or queue:
        invalid names, and bucket names another account already owns. */
    refused: set<string>,
    nonce: nat)
  {
    function RoleArn(name: string): string
    {
      "arn:aws:iam::" + account + ":role/" + name
    }

    function PolicyArn(name: string): string
    {
      "arn:aws:iam::" + account + ":policy/" + name
    }

    function FunctionArn(name: string): string
    {
      "arn:aws:lambda:" + region + ":" + account + ":function:" + name
    }

    function TopicArn(name: string): string
    {
      "arn:aws:sns:" + region + ":" + account + ":" + name
    }

    function QueueArn(name: string): string
    {
      "arn:aws:sqs:" + region + ":" + account + ":" + name
    }

    /** The next random statement id. */
    function NewSid(): (CloudState, string)
    {
      (this.(nonce := nonce + 1), SidOf(nonce))
    }

    // IAM

    /** role.arn: fails for a role that does not exist. */
    function LookupRole(name: string): Result<string>
    {
      if name in roles then Ok(RoleArn(name)) else Err(NoSuchEntity("role " + name))
    }

    function CreateRole(name: string, trust: TrustDocument): (CloudState, Result<string>)
    {
      if name in roles then (this, Err(AlreadyExists("role " + name)))
      else (this.(roles := roles[name := trust]), Ok(RoleArn(name)))
    }

    function AttachRolePolicy(role: string, policyArn: string): (CloudState, Result<()>)
    {
      if role !in roles then (this, Err(NoSuchEntity("role " + role)))
      else (this.(attachments := attachments + {Attachment(role, policyArn)}), Ok(()))
    }

    /** policy.versions of the managed policy named `name`. */
    function ListPolicyVersions(name: string): Result<seq<PolicyVersion>>
    {
      if name in policies then Ok(policies[name].versions) else Err(NoSuchEntity("policy " + name))
    }

    function DeletePolicyVersion(name: string, id: nat): (CloudState, Result<()>)
    {
      if name !in policies then (this, Err(NoSuchEntity("policy " + name)))
      else
        var p := policies[name];
        if !exists i :: 0 <= i < |p.versions| && p.versions[i].id == id then
          (this, Err(NoSuchEntity("policy version of " + name)))
        else if exists i :: 0 <= i < |p.versions| && p.versions[i].id == id && p.versions[i].isDefault then
          (this, Err(DeleteConflict("default version of " + name)))
        else (this.(policies := policies[name := p.(versions := RemoveVersion(p.versions, id))]), Ok(()))
    }

    /** create_version with set_as_default: the new version becomes the only
        default one. */
    function CreatePolicyVersion(name: string, doc: PolicyDocument): (CloudState, Result<()>)
    {
      if name !in policies then (this, Err(NoSuchEntity("policy " + name)))
      else
        var p := policies[name];
        if |p.versions| >= MaxPolicyVersions then (this, Err(LimitExceeded("versions of " + name)))
        else
          var p' := ManagedPolicy(Demote(p.versions) + [PolicyVersion(p.nextId, doc, true)], p.nextId + 1);
          (this.(policies := policies[name := p']), Ok(()))
    }

    function CreatePolicy(name: string, doc: PolicyDocument): (CloudState, Result<string>)
    {
      if name in policies then (this, Err(AlreadyExists("policy " + name)))
      else (this.(policies := policies[name := ManagedPolicy([PolicyVersion(1, doc, true)], 2)]), Ok(PolicyArn(name)))
    }

    // Functions

    function GetFunction(name: string): Option<FunctionConfig>
    {
      if name in functions then Some(functions[name]) else None
    }

    /** A new function starts without a resource-based policy; a timeout left
        out of the request becomes the service's default. */
    function CreateFunction(name: string, config: FunctionConfig): (CloudState, Result<string>)
    {
      if name in functions then (this, Err(AlreadyExists("function " + name)))
      else (this.(functions := functions[name := config.(settings := Settings.Created(config.settings))], permissions := permissions - {name}), Ok(FunctionArn(name)))
    }

    function UpdateFunctionCode(name: string, code: Workspace.Files): (CloudState, Result<string>)
    {
      if name !in functions then (this, Err(NoSuchEntity("function " + name)))
      else (this.(functions := functions[name := functions[name].(code := code)]), Ok(FunctionArn(name)))
    }

    /** update_function_configuration: the handler, runtime, VPC and code are
        not among its arguments and stay as they are, and so does the timeout
        when the request leaves it out. */
    function UpdateFunctionConfiguration(name: string, role: string, description: string, settings: Settings.FunctionSettings)
      : (CloudState, Result<string>)
    {
      if name !in functions then (this, Err(NoSuchEntity("function " + name)))
      else
        var f := functions[name].(role := role, description := description,
                                  settings := Settings.Updated(functions[name].settings, settings));
        (this.(functions := functions[name := f]), Ok(FunctionArn(name)))
    }

    /** The resource-based permissions of a function. */
    function PermissionsOf(name: string): seq<Permission>
    {
      if name in permissions then permissions[name] else []
    }

    /** get_policy: the statements of a function's resource-based policy; a
        function without any statement has no policy, which raises too. */
    function GetPolicy(name: string): Result<seq<Permission>>
    {
      if name !in functions then Err(NoSuchEntity("function " + name))
      else if PermissionsOf(name) == [] then Err(NoSuchEntity("policy of " + name))
      else Ok(PermissionsOf(name))
    }

    function RemovePermission(name: string, sid: string): (CloudState, Result<()>)
    {
      if name !in functions || !HasStatement(PermissionsOf(name), sid) then
        (this, Err(NoSuchEntity("statement " + sid + " of " + name)))
      else (this.(permissions := permissions[name := RemoveStatement(PermissionsOf(name), sid)]), Ok(()))
    }

    /** add_permission: a statement id already in use is a conflict. */
    function AddPermission(p: Permission): (CloudState, Result<()>)
    {
      var name := p.functionName;
      if name !in functions then (this, Err(NoSuchEntity("function " + name)))
      else if HasStatement(PermissionsOf(name), p.statementId) then
        (this, Err(AlreadyExists("statement " + p.statementId + " of " + name)))
      else (this.(permissions := permissions[name := PermissionsOf(name) + [p]]), Ok(()))
    }

    // Topics, buckets, queues, tables

    /** create_topic is idempotent: it answers the topic's ARN whether or not
        the topic existed; only a refused name fails. */
    function CreateTopic(name: string): (CloudState, Result<string>)
    {
      if name in refused then (this, Err(InvalidName("topic " + name)))
      else (this.(topics := topics + {name}), Ok(TopicArn(name)))
    }

    function Subscribe(topicArn: string, endpoint: string): CloudState
    {
      this.(subscriptions := subscriptions + {Subscription(topicArn, endpoint)})
    }

    function CreateBucket(name: string): (CloudState, Result<()>)
    {
      if name in refused then (this, Err(InvalidName("bucket " + name)))
      else if name in buckets then (this, Err(AlreadyExists("bucket " + name)))
      else (this.(buckets := buckets + {name}), Ok(()))
    }

    /** create_queue followed by get_queue_attributes for "QueueArn": the
        queue URL in between is folded into the queue name. Only a refused
        name fails. */
    function CreateQueue(name: string): (CloudState, Result<string>)
    {
      if name in refused then (this, Err(InvalidName("queue " + name)))
      else (this.(queues := queues + {name}), Ok(QueueArn(name)))
    }

    function DescribeTable(name: string): Result<string>
    {
      if name in tables then Ok(tables[name]) else Err(NoSuchEntity("table " + name))
    }
  }

  /** The IAM part of the account is the same in both states: what staging
      mode must leave alone. */
  predicate SameIam(a: CloudState, b: CloudState)
  {
    a.roles == b.roles && a.policies == b.policies && a.attachments == b.attachments
  }
}
