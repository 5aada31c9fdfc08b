/** The policy records the deployment builds (the PolicyDoc mix-in): the
    per-unit policy envelope, the trust policy of an execution role, one
    resource statement per resource kind, and the invoke permissions a topic
    or a bucket is granted on a function. Each builder is pure; the random
    statement id is a parameter. */
module PolicyDoc {

  const PolicyLanguageVersion := "2012-10-17"
  const Allow := "Allow"
  const InvokeFunction := "lambda:InvokeFunction"
  const LambdaService := "lambda.amazonaws.com"
  const AssumeRole := "sts:AssumeRole"
  const SnsService := "sns.amazonaws.com"
  const S3Service := "s3.amazonaws.com"
  /** The region the statement builders take by default and never use. */
  const DefaultRegion := "ap-northeast-2"

  /** One statement of an access policy. */
  datatype Statement = Statement(sid: string, effect: string, action: seq<string>, resource: seq<string>)

  /** An access policy: its language version and its statements, in order. */
  datatype PolicyDocument = PolicyDocument(version: string, statements: seq<Statement>)

  /** One statement of a role's trust policy. */
  datatype TrustStatement = TrustStatement(effect: string, principalService: string, action: string)

  datatype TrustDocument = TrustDocument(version: string, statements: seq<TrustStatement>)

  /** The arguments of an add_permission call on a function. */
  datatype Permission = Permission(
    functionName: string, statementId: string, action: string, principal: string, sourceArn: string)

  /** The resource kinds a unit can declare, one statement builder each. */
  datatype Kind = S3 | Sns | DynamoDb | Sqs

  // ---------------------------------------------------------------------------
  // Statement ids (SecureRandom.hex(16))

  predicate IsHexDigit(c: char)
  {
    '0' <= c <= '9' || 'a' <= c <= 'f'
  }

  /** What SecureRandom.hex(16) yields: 32 lower-case hexadecimal digits. */
  predicate IsSid(s: string)
  {
    |s| == 32 && forall i :: 0 <= i < |s| ==> IsHexDigit(s[i])
  }

  function HexDigit(d: nat): (c: char)
    requires d < 16
    ensures IsHexDigit(c)
  {
    if d < 10 then '0' + d as char else 'a' + (d - 10) as char
  }

  /** The last `width` hexadecimal digits of `n`, most significant first. */
  function Hex(n: nat, width: nat): (r: string)
    ensures |r| == width && forall i :: 0 <= i < width ==> IsHexDigit(r[i])
  {
    if width == 0 then "" else Hex(n / 16, width - 1) + [HexDigit(n % 16)]
  }

  /** The statement id drawn as the `n`-th random value. */
  function SidOf(n: nat): (r: string)
    ensures IsSid(r)
  {
    Hex(n, 32)
  }

  // ---------------------------------------------------------------------------
  // Builders

  /** policy_template: the empty per-unit policy. */
  function PolicyTemplate(): (r: PolicyDocument)
    ensures r.version == PolicyLanguageVersion && r.statements == []
  {
    PolicyDocument(PolicyLanguageVersion, [])
  }

  /** assume_role_policy_doc: lets the function service assume the role. */
  function AssumeRolePolicyDoc(): (r: TrustDocument)
    ensures r.version == PolicyLanguageVersion && |r.statements| == 1
    ensures r.statements[0] == TrustStatement(Allow, LambdaService, AssumeRole)
  {
    TrustDocument(PolicyLanguageVersion, [TrustStatement(Allow, LambdaService, AssumeRole)])
  }

  /** The fixed action list of each kind's statement. */
  function Actions(kind: Kind): seq<string>
  {
    match kind
    case S3 => ["s3:ListBucket", "s3:GetObject"]
    case Sns => ["sns:CreateTopic", "sns:Publish"]
    case DynamoDb => ["dynamodb:DeleteItem", "dynamodb:Query", "dynamodb:PutItem", "dynamodb:UpdateItem"]
    case Sqs => ["sqs:GetQueueAttributes", "sqs:GetQueueUrl", "sqs:SendMessage", "sqs:DeleteMessage", "sqs:ReceiveMessage"]
  }

  /** The service namespace of each kind's actions. */
  function Service(kind: Kind): string
  {
    match kind
    case S3 => "s3"
    case Sns => "sns"
    case DynamoDb => "dynamodb"
    case Sqs => "sqs"
  }

  function S3PolicyDoc(sid: string, bucketArns: seq<string>): Statement
  {
    Statement(sid, Allow, ["s3:ListBucket", "s3:GetObject"], bucketArns)
  }

  function SnsPolicyDoc(sid: string, topicArns: seq<string>, region: string := DefaultRegion): Statement
  {
    Statement(sid, Allow, ["sns:CreateTopic", "sns:Publish"], topicArns)
  }

  function DynamoPolicyDoc(sid: string, tableArns: seq<string>, region: string := DefaultRegion): Statement
  {
    Statement(sid, Allow, ["dynamodb:DeleteItem", "dynamodb:Query", "dynamodb:PutItem", "dynamodb:UpdateItem"], tableArns)
  }

  function SqsPolicyDoc(sid: string, queueArns: seq<string>, region: string := DefaultRegion): Statement
  {
    Statement(sid, Allow,
      ["sqs:GetQueueAttributes", "sqs:GetQueueUrl", "sqs:SendMessage", "sqs:DeleteMessage", "sqs:ReceiveMessage"],
      queueArns)
  }

  /** The builder the linker of `kind` calls. */
  function PolicyDocFor(kind: Kind, sid: string, arns: seq<string>): Statement
  {
    match kind
    case S3 => S3PolicyDoc(sid, arns)
    case Sns => SnsPolicyDoc(sid, arns)
    case DynamoDb => DynamoPolicyDoc(sid, arns)
    case Sqs => SqsPolicyDoc(sid, arns)
  }

  /** Every statement allows, keeps the caller's id, covers exactly the ARNs it
      is given in their order, and grants the kind's fixed, duplicate-free list
      of actions, all of them in the kind's own service namespace. */
  lemma PolicyDocShape(kind: Kind, sid: string, arns: seq<string>)
    ensures var st := PolicyDocFor(kind, sid, arns);
      && st.sid == sid && st.effect == Allow && st.resource == arns
      && st.action == Actions(kind)
      && (forall i, j :: 0 <= i < j < |st.action| ==> st.action[i] != st.action[j])
      && (forall i :: 0 <= i < |st.action| ==> InNamespace(st.action[i], Service(kind)))
  {
    var acts := Actions(kind);
    forall i | 0 <= i < |acts| ensures InNamespace(acts[i], Service(kind)) {
      match kind
      case S3 => assert acts[i][..3] == "s3:";
      case Sns => assert acts[i][..4] == "sns:";
      case DynamoDb => assert acts[i][..9] == "dynamodb:";
      case Sqs => assert acts[i][..4] == "sqs:";
    }
  }

  /** `action` is named in the namespace of `service`. */
  predicate InNamespace(action: string, service: string)
  {
    |service| + 1 <= |action| && action[..|service| + 1] == service + ":"
  }

  /** The region argument of a builder has no effect on the statement. */
  lemma RegionIgnored(sid: string, arns: seq<string>, r1: string, r2: string)
    ensures SnsPolicyDoc(sid, arns, r1) == SnsPolicyDoc(sid, arns, r2)
    ensures DynamoPolicyDoc(sid, arns, r1) == DynamoPolicyDoc(sid, arns, r2)
    ensures SqsPolicyDoc(sid, arns, r1) == SqsPolicyDoc(sid, arns, r2)
  {
  }

  /** sns_lambda_permission: lets a topic invoke a function. */
  function SnsLambdaPermission(sid: string, functionName: string, topicArn: string): (p: Permission)
    ensures p.action == InvokeFunction && p.principal == SnsService
    ensures p.functionName == functionName && p.sourceArn == topicArn && p.statementId == sid
  {
    Permission(functionName, sid, InvokeFunction, SnsService, topicArn)
  }

  /** s3_lambda_permission: lets a bucket invoke a function. */
  function S3LambdaPermission(sid: string, functionName: string, bucketArn: string): (p: Permission)
    ensures p.action == InvokeFunction && p.principal == S3Service
    ensures p.functionName == functionName && p.sourceArn == bucketArn && p.statementId == sid
  {
    Permission(functionName, sid, InvokeFunction, S3Service, bucketArn)
  }
}
