/** link_resource and its handlers: for each resource kind a unit declares in
    its .policy.json, create or look up the resources, wire the event sources
    to the function, and build one statement granting the function access;
    then attach the statements as the unit's own policy. */
module Links {

  import opened Wrappers
  import opened PolicyDoc
  import opened Cloud
  import opened Project
  import Resources
  import Convention
  import Roles

  /** The outcome of a collecting loop with `acc` put in front of what it
      collects: how a loop that has already collected `acc` ends. */
  function Prepended<T>(acc: seq<T>, outcome: (CloudState, Result<seq<T>>)): (CloudState, Result<seq<T>>)
  {
    (outcome.0, if outcome.1.Err? then outcome.1 else Ok(acc + outcome.1.value))
  }

  lemma PrependedNothing<T>(outcome: (CloudState, Result<seq<T>>))
    ensures Prepended([], outcome) == outcome
  {
    if outcome.1.Ok? {
      assert [] + outcome.1.value == outcome.1.value;
    }
  }

  /** Collecting `v` and then the rest is collecting `acc + [v]` first. */
  lemma PrependedStep<T>(acc: seq<T>, v: T, rest: (CloudState, Result<seq<T>>))
    ensures Prepended(acc, (rest.0, if rest.1.Err? then rest.1 else Ok([v] + rest.1.value)))
         == Prepended(acc + [v], rest)
  {
    if rest.1.Ok? {
      assert acc + ([v] + rest.1.value) == acc + [v] + rest.1.value;
    }
  }

  // ---------------------------------------------------------------------------
  // S3

  function BucketArn(bucket: string): string
  {
    "arn:aws:s3:::" + bucket
  }

  /** What a bucket contributes to the S3 statement: its objects. */
  function BucketObjects(bucket: string): string
  {
    BucketArn(bucket) + "/*"
  }

  /** The S3 statement's resources for the declared buckets, in order. */
  function BucketResources(staging: bool, bs: seq<Resources.BucketDecl>): (r: seq<string>)
    ensures |r| == |bs|
    ensures forall i :: 0 <= i < |bs| ==> r[i] == BucketObjects(Convention.BucketName(staging, bs[i].name))
  {
    if bs == [] then [] else [BucketObjects(Convention.BucketName(staging, bs[0].name))] + BucketResources(staging, bs[1..])
  }

  /** The removal of every listed statement from a function's policy. */
  function ClearPermissions(c: CloudState, name: string, ps: seq<Permission>): (CloudState, Result<()>)
    decreases |ps|
  {
    if ps == [] then (c, Ok(()))
    else
      var (c1, r1) := c.RemovePermission(name, ps[0].statementId);
      if r1.Err? then (c1, r1) else ClearPermissions(c1, name, ps[1..])
  }

  /** One entry of link_resource_s3: the bucket is created (any failure,
      such as an existing bucket, is rescued); a bucket with the key
      "is_event_source" replaces every permission of the function by one that
      lets this bucket invoke it. */
  function LinkBucket(s: Setup, c: CloudState, sender: string, b: Resources.BucketDecl): (CloudState, Result<string>)
  {
    var bucket := Convention.BucketName(s.staging, b.name);
    var c1 := c.CreateBucket(bucket).0;
    if b.isEventSource.None? then (c1, Ok(BucketObjects(bucket)))
    else
      match c1.GetPolicy(sender)
      case Err(e) => (c1, Err(e))
      case Ok(ps) =>
        var (c2, r2) := ClearPermissions(c1, sender, ps);
        if r2.Err? then (c2, Err(r2.error))
        else
          var (c3, sid) := c2.NewSid();
          var (c4, r4) := c3.AddPermission(S3LambdaPermission(sid, sender, BucketArn(bucket)));
          if r4.Err? then (c4, Err(r4.error)) else (c4, Ok(BucketObjects(bucket)))
  }

  function LinkBuckets(s: Setup, c: CloudState, sender: string, bs: seq<Resources.BucketDecl>): (CloudState, Result<seq<string>>)
    decreases |bs|
  {
    if bs == [] then (c, Ok([]))
    else
      var (c1, r1) := LinkBucket(s, c, sender, bs[0]);
      if r1.Err? then (c1, Err(r1.error))
      else
        var (c2, r2) := LinkBuckets(s, c1, sender, bs[1..]);
        (c2, if r2.Err? then r2 else Ok([r1.value] + r2.value))
  }

  /** link_resource_s3. */
  function LinkS3(s: Setup, c: CloudState, sender: string, bs: seq<Resources.BucketDecl>): (CloudState, Result<Statement>)
  {
    var (c1, r1) := LinkBuckets(s, c, sender, bs);
    if r1.Err? then (c1, Err(r1.error))
    else
      var (c2, sid) := c1.NewSid();
      (c2, Ok(S3PolicyDoc(sid, r1.value)))
  }

  /** The last declared bucket that has the key "is_event_source". */
  function LastEventSource(bs: seq<Resources.BucketDecl>): (r: Option<Resources.BucketDecl>)
    ensures r.Some? <==> exists i :: 0 <= i < |bs| && bs[i].isEventSource.Some?
    ensures r.Some? ==> r.value.isEventSource.Some?
  {
    if bs == [] then None
    else
      var rest := LastEventSource(bs[1..]);
      if rest.Some? then rest
      else if bs[0].isEventSource.Some? then Some(bs[0])
      else
        assert forall i :: 1 <= i < |bs| ==> bs[i] == bs[1..][i - 1];
        None
  }

  lemma DistinctTail(ps: seq<Permission>)
    requires ps != [] && DistinctStatements(ps)
    ensures DistinctStatements(ps[1..])
  {
    forall i, j | 0 <= i < j < |ps[1..]| ensures ps[1..][i].statementId != ps[1..][j].statementId {
      assert ps[1..][i] == ps[i + 1] && ps[1..][j] == ps[j + 1];
    }
  }

  /** Removing every statement of a function's policy, listed with distinct
      ids, empties it and changes nothing else. */
  lemma {:induction false} ClearAll(c: CloudState, name: string, ps: seq<Permission>)
    requires name in c.functions && c.PermissionsOf(name) == ps && DistinctStatements(ps)
    ensures var (c1, r) := ClearPermissions(c, name, ps);
      && r.Ok?
      && c1 == c.(permissions := c1.permissions)
      && c1.PermissionsOf(name) == []
      && (forall n :: n != name ==> c1.PermissionsOf(n) == c.PermissionsOf(n))
    decreases |ps|
  {
    if ps != [] {
      var sid := ps[0].statementId;
      assert HasStatement(ps, sid) by {
        assert ps[0].statementId == sid;
      }
      assert !HasStatement(ps[1..], sid) by {
        forall i | 0 <= i < |ps[1..]| ensures ps[1..][i].statementId != sid {
          assert ps[1..][i] == ps[i + 1];
        }
      }
      RemoveAbsentStatement(ps[1..], sid);
      assert RemoveStatement(ps, sid) == ps[1..];
      var c1 := c.(permissions := c.permissions[name := ps[1..]]);
      assert c.RemovePermission(name, sid) == (c1, Ok(()));
      assert ClearPermissions(c, name, ps) == ClearPermissions(c1, name, ps[1..]);
      DistinctTail(ps);
      ClearAll(c1, name, ps[1..]);
    }
  }

  /** An event-source bucket leaves the deployed function, which already has
      a policy, with exactly one permission: the one that lets this bucket
      invoke it. The permission is granted even when the bucket name is
      refused and no bucket is created. */
  lemma LinkEventSource(s: Setup, c: CloudState, sender: string, b: Resources.BucketDecl)
    requires b.isEventSource.Some? && sender in c.functions
    requires c.PermissionsOf(sender) != [] && DistinctStatements(c.PermissionsOf(sender))
    ensures var (c1, r) := LinkBucket(s, c, sender, b);
      var bucket := Convention.BucketName(s.staging, b.name);
      && r == Ok(BucketObjects(bucket))
      && c1.PermissionsOf(sender) == [S3LambdaPermission(SidOf(c.nonce), sender, BucketArn(bucket))]
      && c1.buckets == (if bucket in c.refused then c.buckets else c.buckets + {bucket})
      && c1.functions == c.functions && SameIam(c, c1)
      && c1.region == c.region && c1.account == c.account && c1.refused == c.refused
      && (forall n :: n != sender ==> c1.PermissionsOf(n) == c.PermissionsOf(n))
  {
    var bucket := Convention.BucketName(s.staging, b.name);
    var c1 := c.CreateBucket(bucket).0;
    CreateBucketAnyway(c, bucket);
    var ps := c1.PermissionsOf(sender);
    assert c1.GetPolicy(sender) == Ok(ps);
    ClearAll(c1, sender, ps);
    var c2 := ClearPermissions(c1, sender, ps).0;
    var (c3, sid) := c2.NewSid();
    assert sid == SidOf(c.nonce);
    var p := S3LambdaPermission(sid, sender, BucketArn(bucket));
    assert c3.PermissionsOf(sender) == [];
    assert !HasStatement(c3.PermissionsOf(sender), sid);
    assert c3.PermissionsOf(sender) + [p] == [p];
    var c4 := c3.(permissions := c3.permissions[sender := [p]]);
    assert c3.AddPermission(p) == (c4, Ok(()));
    assert LinkBucket(s, c, sender, b) == (c4, Ok(BucketObjects(bucket)));
    forall n | n != sender ensures c4.PermissionsOf(n) == c.PermissionsOf(n) {
      assert c4.PermissionsOf(n) == c2.PermissionsOf(n);
    }
  }

  /** A bucket without the key is only created; a refused name changes
      nothing, and the bucket's objects are listed all the same. */
  lemma LinkDataStore(s: Setup, c: CloudState, sender: string, b: Resources.BucketDecl)
    requires b.isEventSource.None?
    ensures var bucket := Convention.BucketName(s.staging, b.name);
      LinkBucket(s, c, sender, b)
      == (if bucket in c.refused then c else c.(buckets := c.buckets + {bucket}), Ok(BucketObjects(bucket)))
  {
    CreateBucketAnyway(c, Convention.BucketName(s.staging, b.name));
  }

  /** create_bucket fails for a refused name and for an existing bucket; with
      that failure rescued, the bucket is in place afterwards unless its name
      is refused, and nothing else changes. */
  lemma CreateBucketAnyway(c: CloudState, bucket: string)
    ensures c.CreateBucket(bucket).1.Err? <==> bucket in c.refused || bucket in c.buckets
    ensures c.CreateBucket(bucket).0 == if bucket in c.refused then c else c.(buckets := c.buckets + {bucket})
  {
    if bucket in c.buckets {
      assert c.buckets + {bucket} == c.buckets;
    }
  }

  /** For a deployed function whose permissions have distinct ids, and which
      has a policy when some bucket is an event source, the S3 handler
      succeeds with the objects of every declared bucket and creates every
      bucket whose name is not refused; when some bucket is an event source,
      the function ends with exactly one permission, for the last such
      bucket; otherwise its permissions are untouched. */
  lemma {:induction false} LinkBucketsOutcome(s: Setup, c: CloudState, sender: string, bs: seq<Resources.BucketDecl>)
    requires sender in c.functions && DistinctStatements(c.PermissionsOf(sender))
    requires LastEventSource(bs).Some? ==> c.PermissionsOf(sender) != []
    ensures var (c1, r) := LinkBuckets(s, c, sender, bs);
      && r == Ok(BucketResources(s.staging, bs))
      && c1.functions == c.functions && SameIam(c, c1)
      && c1.region == c.region && c1.account == c.account && c1.refused == c.refused
      && c.buckets <= c1.buckets
      && (forall i :: 0 <= i < |bs| && Convention.BucketName(s.staging, bs[i].name) !in c.refused ==>
            Convention.BucketName(s.staging, bs[i].name) in c1.buckets)
      && DistinctStatements(c1.PermissionsOf(sender))
      && (LastEventSource(bs).None? ==> c1.PermissionsOf(sender) == c.PermissionsOf(sender))
      && (LastEventSource(bs).Some? ==>
            |c1.PermissionsOf(sender)| == 1
            && c1.PermissionsOf(sender)[0]
               == S3LambdaPermission(c1.PermissionsOf(sender)[0].statementId, sender,
                                     BucketArn(Convention.BucketName(s.staging, LastEventSource(bs).value.name))))
    decreases |bs|
  {
    if bs != [] {
      var (c1, r1) := LinkBucket(s, c, sender, bs[0]);
      if bs[0].isEventSource.Some? {
        LinkEventSource(s, c, sender, bs[0]);
      } else {
        LinkDataStore(s, c, sender, bs[0]);
      }
      assert r1.Ok?;
      LinkBucketsOutcome(s, c1, sender, bs[1..]);
    }
    BucketsKeepIam(s, c, sender, bs);
  }

  /** get_policy raises for a function without a policy, so an event-source
      bucket fails for a function that is not deployed or has no permission
      yet. */
  lemma LinkEventSourceNoPolicy(s: Setup, c: CloudState, sender: string, b: Resources.BucketDecl)
    requires b.isEventSource.Some? && (sender !in c.functions || c.PermissionsOf(sender) == [])
    ensures LinkBucket(s, c, sender, b).1.Err?
  {
    CreateBucketAnyway(c, Convention.BucketName(s.staging, b.name));
  }

  /** Hence the S3 handler of a function without any permission, such as one
      just created, fails as soon as some declared bucket is an event
      source. */
  lemma {:induction false} LinkBucketsNoPolicy(s: Setup, c: CloudState, sender: string, bs: seq<Resources.BucketDecl>)
    requires c.PermissionsOf(sender) == [] && LastEventSource(bs).Some?
    ensures LinkBuckets(s, c, sender, bs).1.Err?
    decreases |bs|
  {
    if bs[0].isEventSource.Some? {
      LinkEventSourceNoPolicy(s, c, sender, bs[0]);
    } else {
      LinkDataStore(s, c, sender, bs[0]);
      var c1 := LinkBucket(s, c, sender, bs[0]).0;
      assert LastEventSource(bs[1..]).Some?;
      LinkBucketsNoPolicy(s, c1, sender, bs[1..]);
    }
  }

  /** Whatever the buckets' state, a successful S3 loop answers the objects
      of every declared bucket, in order. */
  lemma {:induction false} LinkBucketsResources(s: Setup, c: CloudState, sender: string, bs: seq<Resources.BucketDecl>)
    ensures var r := LinkBuckets(s, c, sender, bs).1;
      r.Ok? ==> r.value == BucketResources(s.staging, bs)
    decreases |bs|
  {
    if bs != [] {
      var (c1, r1) := LinkBucket(s, c, sender, bs[0]);
      if r1.Ok? {
        assert r1.value == BucketObjects(Convention.BucketName(s.staging, bs[0].name));
        LinkBucketsResources(s, c1, sender, bs[1..]);
      }
    }
  }

  // ---------------------------------------------------------------------------
  // SNS

  /** One entry of link_resource_sns: the topic named after the sibling unit
      is created, and a refused name raises; when that unit's function
      exists it is subscribed to the topic and the topic is allowed to invoke
      it, and any failure there is rescued. */
  function LinkTopic(s: Setup, c: CloudState, feature: string, topic: string): (CloudState, Result<string>)
  {
    var linker := Convention.BuildName(s.project, feature, topic);
    var (c1, created) := c.CreateTopic(linker);
    if created.Err? then (c1, created)
    else
      match c1.GetFunction(linker)
      case None => (c1, created)
      case Some(_) =>
        var c2 := c1.Subscribe(created.value, c1.FunctionArn(linker));
        var (c3, sid) := c2.NewSid();
        (c3.AddPermission(SnsLambdaPermission(sid, linker, created.value)).0, created)
  }

  function LinkTopics(s: Setup, c: CloudState, feature: string, ts: seq<string>): (CloudState, Result<seq<string>>)
    decreases |ts|
  {
    if ts == [] then (c, Ok([]))
    else
      var (c1, r1) := LinkTopic(s, c, feature, ts[0]);
      if r1.Err? then (c1, Err(r1.error))
      else
        var (c2, r2) := LinkTopics(s, c1, feature, ts[1..]);
        (c2, if r2.Err? then r2 else Ok([r1.value] + r2.value))
  }

  /** link_resource_sns: the sender's name must split, even with no topic. */
  function LinkSns(s: Setup, c: CloudState, sender: string, ts: seq<string>): (CloudState, Result<Statement>)
  {
    match Convention.Split(sender)
    case Err(e) => (c, Err(e))
    case Ok(u) =>
      var (c1, r1) := LinkTopics(s, c, u.feature, ts);
      if r1.Err? then (c1, Err(r1.error))
      else
        var (c2, sid) := c1.NewSid();
        (c2, Ok(SnsPolicyDoc(sid, r1.value)))
  }

  /** The SNS statement's resources: the topic of each declared name. */
  function TopicResources(c: CloudState, project: string, feature: string, ts: seq<string>): (r: seq<string>)
    ensures |r| == |ts|
    ensures forall i :: 0 <= i < |ts| ==> r[i] == c.TopicArn(Convention.BuildName(project, feature, ts[i]))
  {
    if ts == [] then [] else [c.TopicArn(Convention.BuildName(project, feature, ts[0]))] + TopicResources(c, project, feature, ts[1..])
  }

  /** The topics of one feature's units: `linker` is the sibling unit. */
  predicate Subscribed(c: CloudState, c1: CloudState, linker: string)
  {
    Subscription(c.TopicArn(linker), c.FunctionArn(linker)) in c1.subscriptions
  }

  /** The SNS loop fails exactly when the name of some declared topic is
      refused. Otherwise it creates the topic of every declared name,
      subscribes every sibling unit that is already deployed, skips the others
      silently, and answers the topics' ARNs in order. Either way it only adds
      permissions, and only to the sibling units' functions. */
  lemma {:induction false} LinkTopicsOutcome(s: Setup, c: CloudState, feature: string, ts: seq<string>)
    ensures var (c1, r) := LinkTopics(s, c, feature, ts);
      && (r.Ok? <==> forall i :: 0 <= i < |ts| ==> Convention.BuildName(s.project, feature, ts[i]) !in c.refused)
      && (r.Ok? ==>
            && r.value == TopicResources(c, s.project, feature, ts)
            && (forall i :: 0 <= i < |ts| ==> Convention.BuildName(s.project, feature, ts[i]) in c1.topics)
            && (forall i :: 0 <= i < |ts| && Convention.BuildName(s.project, feature, ts[i]) in c.functions ==>
                  Subscribed(c, c1, Convention.BuildName(s.project, feature, ts[i]))))
      && c1.region == c.region && c1.account == c.account && c1.refused == c.refused
      && c1.functions == c.functions && SameIam(c, c1)
      && c.topics <= c1.topics && c.subscriptions <= c1.subscriptions
      && (forall n :: c.PermissionsOf(n) <= c1.PermissionsOf(n))
      && (forall n :: (forall i :: 0 <= i < |ts| ==> Convention.BuildName(s.project, feature, ts[i]) != n) ==>
            c1.PermissionsOf(n) == c.PermissionsOf(n))
    decreases |ts|
  {
    LinkTopicsPermissions(s, c, feature, ts);
    if ts != [] {
      var (c1, r1) := LinkTopic(s, c, feature, ts[0]);
      LinkTopicOutcome(s, c, feature, ts[0]);
      if r1.Ok? {
        LinkTopicsOutcome(s, c1, feature, ts[1..]);
        TopicResourcesFrame(c, c1, s.project, feature, ts[1..]);
        assert forall i :: 1 <= i < |ts| ==> ts[i] == ts[1..][i - 1];
      }
    }
  }

  /** The SNS loop only adds permissions, and only to the linkers. */
  lemma {:induction false} LinkTopicsPermissions(s: Setup, c: CloudState, feature: string, ts: seq<string>)
    ensures var c1 := LinkTopics(s, c, feature, ts).0;
      && (forall n :: c.PermissionsOf(n) <= c1.PermissionsOf(n))
      && (forall n :: (forall i :: 0 <= i < |ts| ==> Convention.BuildName(s.project, feature, ts[i]) != n) ==>
            c1.PermissionsOf(n) == c.PermissionsOf(n))
    decreases |ts|
  {
    if ts != [] {
      var (c1, r1) := LinkTopic(s, c, feature, ts[0]);
      LinkTopicOutcome(s, c, feature, ts[0]);
      if r1.Ok? {
        LinkTopicsPermissions(s, c1, feature, ts[1..]);
        var c2 := LinkTopics(s, c1, feature, ts[1..]).0;
        assert forall i :: 1 <= i < |ts| ==> ts[i] == ts[1..][i - 1];
        forall n ensures c.PermissionsOf(n) <= c2.PermissionsOf(n) {
          PrefixTrans(c.PermissionsOf(n), c1.PermissionsOf(n), c2.PermissionsOf(n));
        }
      }
    }
  }

  lemma PrefixTrans<T>(a: seq<T>, b: seq<T>, c: seq<T>)
    requires a <= b && b <= c
    ensures a <= c
  {
    assert a == b[..|a|] && b == c[..|b|];
    assert c[..|b|][..|a|] == c[..|a|];
  }

  /** One topic: created, with its ARN answered, unless the name is refused,
      which changes nothing. The sibling unit, when deployed, is subscribed
      and gets one more permission, with the next fresh id, letting the topic
      invoke it; no other function's permissions change. */
  lemma LinkTopicOutcome(s: Setup, c: CloudState, feature: string, topic: string)
    ensures var (c1, r) := LinkTopic(s, c, feature, topic);
      var linker := Convention.BuildName(s.project, feature, topic);
      && (r.Ok? <==> linker !in c.refused)
      && (r.Err? ==> c1 == c)
      && (r.Ok? ==> r.value == c.TopicArn(linker) && linker in c1.topics)
      && c1.region == c.region && c1.account == c.account && c1.refused == c.refused
      && c1.tables == c.tables
      && c1.functions == c.functions && SameIam(c, c1)
      && c.topics <= c1.topics && c.subscriptions <= c1.subscriptions
      && (r.Ok? && linker in c.functions ==> Subscribed(c, c1, linker))
      && (r.Ok? && linker in c.functions && !HasStatement(c.PermissionsOf(linker), SidOf(c.nonce)) ==>
            c1.PermissionsOf(linker)
            == c.PermissionsOf(linker) + [SnsLambdaPermission(SidOf(c.nonce), linker, c.TopicArn(linker))])
      && c.PermissionsOf(linker) <= c1.PermissionsOf(linker)
      && (forall n :: n != linker ==> c1.PermissionsOf(n) == c.PermissionsOf(n))
  {
    var linker := Convention.BuildName(s.project, feature, topic);
    var (c1, created) := c.CreateTopic(linker);
    if created.Ok? && linker in c1.functions {
      var c2 := c1.Subscribe(created.value, c1.FunctionArn(linker));
      var (c3, sid) := c2.NewSid();
      var (c4, r4) := c3.AddPermission(SnsLambdaPermission(sid, linker, created.value));
      assert c4.subscriptions == c2.subscriptions;
      assert c3.PermissionsOf(linker) == c.PermissionsOf(linker);
      if r4.Ok? {
        assert c4.PermissionsOf(linker) == c.PermissionsOf(linker) + [SnsLambdaPermission(sid, linker, created.value)];
      }
    }
  }

  /** The SNS loop keeps what the statements' ARNs are built from. */
  lemma {:induction false} LinkTopicsNaming(s: Setup, c: CloudState, feature: string, ts: seq<string>)
    ensures SameNaming(c, LinkTopics(s, c, feature, ts).0)
    decreases |ts|
  {
    if ts != [] {
      var (c1, r1) := LinkTopic(s, c, feature, ts[0]);
      LinkTopicOutcome(s, c, feature, ts[0]);
      if r1.Ok? {
        LinkTopicsNaming(s, c1, feature, ts[1..]);
      }
    }
  }

  lemma {:induction false} TopicResourcesFrame(c: CloudState, c1: CloudState, project: string, feature: string, ts: seq<string>)
    requires c1.region == c.region && c1.account == c.account
    ensures TopicResources(c1, project, feature, ts) == TopicResources(c, project, feature, ts)
    decreases |ts|
  {
    if ts != [] {
      TopicResourcesFrame(c, c1, project, feature, ts[1..]);
    }
  }

  /** The SNS handler fails exactly on a sender name that does not split or
      a refused topic name, and otherwise grants access to the topic of every
      declared name. */
  lemma LinkSnsOutcome(s: Setup, c: CloudState, sender: string, ts: seq<string>)
    ensures var (c1, r) := LinkSns(s, c, sender, ts);
      && (r.Ok? <==>
            && Convention.Split(sender).Ok?
            && forall i :: 0 <= i < |ts| ==>
                 Convention.BuildName(s.project, Convention.Split(sender).value.feature, ts[i]) !in c.refused)
      && (r.Ok? ==> r.value.resource == TopicResources(c, s.project, Convention.Split(sender).value.feature, ts)
                    && r.value.action == Actions(Sns) && IsSid(r.value.sid))
      && SameIam(c, c1) && c1.functions == c.functions
  {
    if Convention.Split(sender).Ok? {
      LinkTopicsOutcome(s, c, Convention.Split(sender).value.feature, ts);
    }
  }

  /** create_topic is not rescued: one refused topic name fails the whole
      SNS handler. */
  lemma LinkSnsRefusedTopic(s: Setup, c: CloudState, sender: string, ts: seq<string>, i: int)
    requires Convention.Split(sender).Ok? && 0 <= i < |ts|
    requires Convention.BuildName(s.project, Convention.Split(sender).value.feature, ts[i]) in c.refused
    ensures LinkSns(s, c, sender, ts).1.Err?
  {
    LinkSnsOutcome(s, c, sender, ts);
  }

  // ---------------------------------------------------------------------------
  // DynamoDB

  /** The describe_table loop: every table must exist. */
  function TableArns(c: CloudState, ts: seq<string>): (r: Result<seq<string>>)
    ensures r.Ok? <==> forall i :: 0 <= i < |ts| ==> ts[i] in c.tables
    ensures r.Ok? ==> |r.value| == |ts| && forall i :: 0 <= i < |ts| ==> r.value[i] == c.tables[ts[i]]
    decreases |ts|
  {
    if ts == [] then Ok([])
    else
      match c.DescribeTable(ts[0])
      case Err(e) => Err(e)
      case Ok(arn) =>
        var rest := TableArns(c, ts[1..]);
        assert forall i :: 1 <= i < |ts| ==> ts[i] == ts[1..][i - 1];
        if rest.Err? then rest else Ok([arn] + rest.value)
  }

  /** link_resource_dynamodb. */
  function LinkDynamoDb(c: CloudState, ts: seq<string>): (CloudState, Result<Statement>)
  {
    match TableArns(c, ts)
    case Err(e) => (c, Err(e))
    case Ok(arns) =>
      var (c1, sid) := c.NewSid();
      (c1, Ok(DynamoPolicyDoc(sid, arns)))
  }

  // ---------------------------------------------------------------------------
  // SQS

  /** The link_resource_sqs loop: the queue's delay is read from
      .resource.json before the queue is created, and that read fails for a
      queue without an entry there; a refused queue name fails too. */
  function LinkQueues(s: Setup, c: CloudState, qs: seq<string>): (CloudState, Result<seq<string>>)
    decreases |qs|
  {
    if qs == [] then (c, Ok([]))
    else if qs[0] !in s.queueSettings then (c, Err(MissingSetting("sqs " + qs[0])))
    else
      var (c1, r1) := c.CreateQueue(qs[0]);
      if r1.Err? then (c1, Err(r1.error))
      else
        var (c2, r2) := LinkQueues(s, c1, qs[1..]);
        (c2, if r2.Err? then r2 else Ok([r1.value] + r2.value))
  }

  /** link_resource_sqs. */
  function LinkSqs(s: Setup, c: CloudState, qs: seq<string>): (CloudState, Result<Statement>)
  {
    var (c1, r1) := LinkQueues(s, c, qs);
    if r1.Err? then (c1, Err(r1.error))
    else
      var (c2, sid) := c1.NewSid();
      (c2, Ok(SqsPolicyDoc(sid, r1.value)))
  }

  /** The SQS loop succeeds exactly when every queue has its entry in
      .resource.json and a name the provider accepts; it then has created
      every queue and answers their ARNs in order. */
  lemma {:induction false} LinkQueuesOutcome(s: Setup, c: CloudState, qs: seq<string>)
    ensures var (c1, r) := LinkQueues(s, c, qs);
      && (r.Ok? <==> forall i :: 0 <= i < |qs| ==> qs[i] in s.queueSettings && qs[i] !in c.refused)
      && (r.Ok? ==> |r.value| == |qs|
                    && (forall i :: 0 <= i < |qs| ==> r.value[i] == c.QueueArn(qs[i]) && qs[i] in c1.queues))
      && c.queues <= c1.queues && SameIam(c, c1) && c1.functions == c.functions
      && c1.region == c.region && c1.account == c.account && c1.refused == c.refused
      && c1.tables == c.tables
    decreases |qs|
  {
    if qs != [] && qs[0] in s.queueSettings && qs[0] !in c.refused {
      var c1 := c.CreateQueue(qs[0]).0;
      LinkQueuesOutcome(s, c1, qs[1..]);
      assert forall i :: 1 <= i < |qs| ==> qs[i] == qs[1..][i - 1];
    }
  }

  // ---------------------------------------------------------------------------
  // link_resource

  /** The statement kind of a declaration the script has a handler for. */
  function KindOf(d: Resources.Declaration): Option<Kind>
  {
    match d
    case S3Decl(_) => Some(S3)
    case SnsDecl(_) => Some(Sns)
    case DynamoDbDecl(_) => Some(DynamoDb)
    case SqsDecl(_) => Some(Sqs)
    case Unsupported(_) => None
  }

  /** The account's parts that the statements' ARNs are built from: the
      region, the account id and the tables' ARNs. */
  predicate SameNaming(c: CloudState, c1: CloudState)
  {
    c1.region == c.region && c1.account == c.account && c1.tables == c.tables
  }

  /** The resources of the statement the handler of a declaration builds, as
      the account before the links determines them: the objects of each
      declared bucket, the topic of each sibling unit, the ARN describe_table
      answers for each table and the ARN of each queue, in declaration order.
      A missing table makes the handler fail, so its entry here is only a
      placeholder. */
  function DeclaredResources(s: Setup, c: CloudState, sender: string, d: Resources.Declaration): seq<string>
  {
    match d
    case S3Decl(bs) => BucketResources(s.staging, bs)
    case SnsDecl(ts) =>
      if Convention.Split(sender).Ok? then TopicResources(c, s.project, Convention.Split(sender).value.feature, ts)
      else []
    case DynamoDbDecl(ts) => seq(|ts|, k requires 0 <= k < |ts| => if ts[k] in c.tables then c.tables[ts[k]] else "")
    case SqsDecl(qs) => seq(|qs|, k requires 0 <= k < |qs| => c.QueueArn(qs[k]))
    case Unsupported(_) => []
  }

  lemma DeclaredResourcesFrame(s: Setup, c: CloudState, c1: CloudState, sender: string, d: Resources.Declaration)
    requires SameNaming(c, c1)
    ensures DeclaredResources(s, c1, sender, d) == DeclaredResources(s, c, sender, d)
  {
    if d.SnsDecl? && Convention.Split(sender).Ok? {
      TopicResourcesFrame(c, c1, s.project, Convention.Split(sender).value.feature, d.topics);
    }
  }

  /** Every handler keeps what the ARNs are built from, and a successful one
      builds its statement over the declaration's resources. */
  lemma LinkDeclarationResources(s: Setup, c: CloudState, sender: string, d: Resources.Declaration)
    ensures var (c1, r) := LinkDeclaration(s, c, sender, d);
      && SameNaming(c, c1)
      && (r.Ok? ==> r.value.resource == DeclaredResources(s, c, sender, d))
  {
    match d
    case S3Decl(bs) =>
      BucketsKeepIam(s, c, sender, bs);
      LinkBucketsResources(s, c, sender, bs);
    case SnsDecl(ts) =>
      LinkSnsOutcome(s, c, sender, ts);
      if Convention.Split(sender).Ok? {
        LinkTopicsNaming(s, c, Convention.Split(sender).value.feature, ts);
      }
    case DynamoDbDecl(ts) =>
      var arns := TableArns(c, ts);
      if arns.Ok? {
        assert arns.value == DeclaredResources(s, c, sender, d);
      }
    case SqsDecl(qs) =>
      LinkQueuesOutcome(s, c, qs);
      var r := LinkQueues(s, c, qs).1;
      if r.Ok? {
        assert r.value == DeclaredResources(s, c, sender, d);
      }
    case Unsupported(_) =>
  }

  /** The statements link_resource collects are built over the declarations'
      resources, one statement per key in the file's order. */
  lemma {:induction false} LinkDeclarationsResources(s: Setup, c: CloudState, sender: string, ds: Resources.ResourcePolicy)
    ensures var (c1, r) := LinkDeclarations(s, c, sender, ds);
      && SameNaming(c, c1)
      && (r.Ok? ==> |r.value| == |ds|
                    && forall i :: 0 <= i < |ds| ==> r.value[i].resource == DeclaredResources(s, c, sender, ds[i]))
    decreases |ds|
  {
    if ds != [] {
      var (c1, r1) := LinkDeclaration(s, c, sender, ds[0]);
      LinkDeclarationResources(s, c, sender, ds[0]);
      if r1.Ok? {
        LinkDeclarationsResources(s, c1, sender, ds[1..]);
        forall i | 1 <= i < |ds| ensures DeclaredResources(s, c1, sender, ds[i]) == DeclaredResources(s, c, sender, ds[i]) {
          DeclaredResourcesFrame(s, c, c1, sender, ds[i]);
        }
        assert forall i :: 1 <= i < |ds| ==> ds[i] == ds[1..][i - 1];
      }
    }
  }

  /** link_resource_<key> for one key of .policy.json; a key without a
      handler raises NoMethodError. */
  function LinkDeclaration(s: Setup, c: CloudState, sender: string, d: Resources.Declaration): (CloudState, Result<Statement>)
  {
    match d
    case S3Decl(bs) => LinkS3(s, c, sender, bs)
    case SnsDecl(ts) => LinkSns(s, c, sender, ts)
    case DynamoDbDecl(ts) => LinkDynamoDb(c, ts)
    case SqsDecl(qs) => LinkSqs(s, c, qs)
    case Unsupported(key) => (c, Err(UnsupportedKind(key)))
  }

  /** The loop of link_resource over the keys, collecting one statement each. */
  function LinkDeclarations(s: Setup, c: CloudState, sender: string, ds: Resources.ResourcePolicy)
    : (CloudState, Result<seq<Statement>>)
    decreases |ds|
  {
    if ds == [] then (c, Ok([]))
    else
      var (c1, r1) := LinkDeclaration(s, c, sender, ds[0]);
      if r1.Err? then (c1, Err(r1.error))
      else
        var (c2, r2) := LinkDeclarations(s, c1, sender, ds[1..]);
        (c2, if r2.Err? then r2 else Ok([r1.value] + r2.value))
  }

  /** link_resource. */
  function LinkResource(s: Setup, c: CloudState, name: string): (CloudState, Result<()>)
  {
    match Convention.ToPath(name)
    case Err(e) => (c, Err(e))
    case Ok(path) =>
      var (c1, r1) := LinkDeclarations(s, c, name, UnitAt(s, path).policy);
      if r1.Err? then (c1, Err(r1.error))
      else Roles.AttachPolicy(s, c1, name, Some(PolicyDocument(PolicyLanguageVersion, r1.value)))
  }

  /** The statement a handler returns is the builder's statement of the
      declaration's kind, with a fresh random id. */
  lemma LinkDeclarationShape(s: Setup, c: CloudState, sender: string, d: Resources.Declaration)
    ensures var (c1, r) := LinkDeclaration(s, c, sender, d);
      && (d.Unsupported? ==> r.Err? && c1 == c)
      && (r.Ok? ==> KindOf(d).Some?
                    && r.value == PolicyDocFor(KindOf(d).value, r.value.sid, r.value.resource)
                    && IsSid(r.value.sid))
  {
  }

  /** Every handler leaves the IAM part of the account alone. */
  lemma LinkDeclarationKeepsIam(s: Setup, c: CloudState, sender: string, d: Resources.Declaration)
    ensures SameIam(c, LinkDeclaration(s, c, sender, d).0)
    ensures LinkDeclaration(s, c, sender, d).0.functions == c.functions
  {
    match d
    case S3Decl(bs) => BucketsKeepIam(s, c, sender, bs);
    case SnsDecl(ts) => LinkSnsOutcome(s, c, sender, ts);
    case DynamoDbDecl(ts) =>
    case SqsDecl(qs) => LinkQueuesOutcome(s, c, qs);
    case Unsupported(_) =>
  }

  lemma {:induction false} BucketsKeepIam(s: Setup, c: CloudState, sender: string, bs: seq<Resources.BucketDecl>)
    ensures var (c1, r) := LinkBuckets(s, c, sender, bs);
      && SameIam(c, c1) && c1.functions == c.functions
      && c1.region == c.region && c1.account == c.account && c1.refused == c.refused
      && c1.tables == c.tables && c.buckets <= c1.buckets
      && (r.Ok? ==> forall i :: 0 <= i < |bs| && Convention.BucketName(s.staging, bs[i].name) !in c.refused ==>
                      Convention.BucketName(s.staging, bs[i].name) in c1.buckets)
    decreases |bs|
  {
    if bs != [] {
      var (c1, r1) := LinkBucket(s, c, sender, bs[0]);
      BucketKeepsIam(s, c, sender, bs[0]);
      if r1.Ok? {
        BucketsKeepIam(s, c1, sender, bs[1..]);
        assert forall i :: 1 <= i < |bs| ==> bs[i] == bs[1..][i - 1];
      }
    }
  }

  /** One bucket changes no IAM entity and no function, and creates the
      bucket unless its name is refused, whatever happens after. */
  lemma BucketKeepsIam(s: Setup, c: CloudState, sender: string, b: Resources.BucketDecl)
    ensures var c1 := LinkBucket(s, c, sender, b).0;
      var bucket := Convention.BucketName(s.staging, b.name);
      && SameIam(c, c1) && c1.functions == c.functions
      && c1.region == c.region && c1.account == c.account && c1.refused == c.refused
      && c1.tables == c.tables
      && c1.buckets == if bucket in c.refused then c.buckets else c.buckets + {bucket}
  {
    var bucket := Convention.BucketName(s.staging, b.name);
    var c1 := c.CreateBucket(bucket).0;
    CreateBucketAnyway(c, bucket);
    if b.isEventSource.Some? && c1.GetPolicy(sender).Ok? {
      var ps := c1.GetPolicy(sender).value;
      ClearKeepsIam(c1, sender, ps);
      var (c2, r2) := ClearPermissions(c1, sender, ps);
      if r2.Ok? {
        var (c3, sid) := c2.NewSid();
        var c4 := c3.AddPermission(S3LambdaPermission(sid, sender, BucketArn(bucket))).0;
        assert c4 == c1.(permissions := c4.permissions, nonce := c4.nonce);
      }
    }
  }

  /** Clearing permissions changes nothing but permissions. */
  lemma {:induction false} ClearKeepsIam(c: CloudState, name: string, ps: seq<Permission>)
    ensures var c1 := ClearPermissions(c, name, ps).0;
      c1 == c.(permissions := c1.permissions)
    decreases |ps|
  {
    if ps != [] {
      var (c1, r1) := c.RemovePermission(name, ps[0].statementId);
      if r1.Ok? {
        ClearKeepsIam(c1, name, ps[1..]);
      }
    }
  }

  /** The statements link_resource collects: one per key, in the file's
      order, each granting the fixed actions of its kind over the resources
      the key declares; a key without a handler makes the whole loop fail. The IAM part of the account is not
      touched by the loop. */
  lemma {:induction false} LinkDeclarationsOutcome(s: Setup, c: CloudState, sender: string, ds: Resources.ResourcePolicy)
    ensures var (c1, r) := LinkDeclarations(s, c, sender, ds);
      && SameIam(c, c1) && c1.functions == c.functions
      && ((exists i :: 0 <= i < |ds| && ds[i].Unsupported?) ==> r.Err?)
      && (r.Ok? ==> |r.value| == |ds|
                    && forall i :: 0 <= i < |ds| ==>
                         KindOf(ds[i]).Some? && r.value[i].effect == Allow
                         && r.value[i].action == Actions(KindOf(ds[i]).value) && IsSid(r.value[i].sid)
                         && r.value[i].resource == DeclaredResources(s, c, sender, ds[i]))
    decreases |ds|
  {
    LinkDeclarationsResources(s, c, sender, ds);
    if ds != [] {
      var (c1, r1) := LinkDeclaration(s, c, sender, ds[0]);
      LinkDeclarationShape(s, c, sender, ds[0]);
      LinkDeclarationKeepsIam(s, c, sender, ds[0]);
      if r1.Ok? {
        PolicyDocShape(KindOf(ds[0]).value, r1.value.sid, r1.value.resource);
        LinkDeclarationsOutcome(s, c1, sender, ds[1..]);
        assert forall i :: 1 <= i < |ds| ==> ds[i] == ds[1..][i - 1];
      }
    }
  }

  /** In staging mode link_resource leaves the IAM part of the account alone. */
  lemma LinkResourceStaging(s: Setup, c: CloudState, name: string)
    requires s.staging
    ensures SameIam(c, LinkResource(s, c, name).0)
  {
    if Convention.ToPath(name).Ok? {
      LinkDeclarationsOutcome(s, c, name, UnitAt(s, Convention.ToPath(name).value).policy);
    }
  }

  /** Whatever happens, link_resource keeps the roles and the functions and
      removes no attachment. */
  lemma LinkResourceFrame(s: Setup, c: CloudState, name: string)
    ensures var c1 := LinkResource(s, c, name).0;
      c1.roles == c.roles && c1.functions == c.functions && c.attachments <= c1.attachments
  {
    if Convention.ToPath(name).Ok? {
      var ds := UnitAt(s, Convention.ToPath(name).value).policy;
      LinkDeclarationsOutcome(s, c, name, ds);
      var (c1, r1) := LinkDeclarations(s, c, name, ds);
      if r1.Ok? {
        Roles.AttachPolicyFrame(s, c1, name, Some(PolicyDocument(PolicyLanguageVersion, r1.value)));
      }
    }
  }

  /** Outside staging mode, once the unit's role exists and its resources link,
      link_resource succeeds, and the unit's own policy, when the unit declares
      any resource, holds exactly the collected statements as its default
      version, one per declared kind, each over the resources its key
      declares. */
  lemma LinkResourceOutcome(s: Setup, c: CloudState, name: string)
    requires !s.staging && s.commonPolicies.Some?
    requires name in c.roles && Convention.ToPath(name).Ok?
    requires name in c.policies ==> WellFormedPolicy(c.policies[name])
    requires LinkDeclarations(s, c, name, UnitAt(s, Convention.ToPath(name).value).policy).1.Ok?
    ensures var (c1, r) := LinkResource(s, c, name);
      var ds := UnitAt(s, Convention.ToPath(name).value).policy;
      var stmts := LinkDeclarations(s, c, name, ds).1.value;
      && r.Ok?
      && (ds != [] ==>
            name in c1.policies && WellFormedPolicy(c1.policies[name])
            && Defaults(c1.policies[name].versions)
               == [PolicyVersion(c1.policies[name].nextId - 1, PolicyDocument(PolicyLanguageVersion, stmts), true)]
            && |stmts| == |ds|
            && forall i :: 0 <= i < |ds| ==> stmts[i].resource == DeclaredResources(s, c, name, ds[i]))
  {
    var path := Convention.ToPath(name).value;
    var ds := UnitAt(s, path).policy;
    var (c1, r1) := LinkDeclarations(s, c, name, ds);
    LinkDeclarationsOutcome(s, c, name, ds);
    var doc := Some(PolicyDocument(PolicyLanguageVersion, r1.value));
    Roles.AttachPolicyOutcome(s, c1, name, doc);
    Roles.AttachPolicyKeepsPolicyWellFormed(c1, name, doc);
  }
}
