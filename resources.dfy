/** A unit's .policy.json: the external resources it declares, one entry per
    resource kind, in the order of the file's keys. */
module Resources {

  import opened Wrappers

  /** An S3 entry: the bucket's name and, when the key is written at all, the
      value of "is_event_source". */
  datatype BucketDecl = BucketDecl(name: string, isEventSource: Option<bool>)

  /** One key of .policy.json with its list. A key for which the script has no
      link_resource_<key> method is Unsupported. */
  datatype Declaration =
    | S3Decl(buckets: seq<BucketDecl>)
    | SnsDecl(topics: seq<string>)
    | DynamoDbDecl(tables: seq<string>)
    | SqsDecl(queues: seq<string>)
    | Unsupported(key: string)

  type ResourcePolicy = seq<Declaration>

  /** policy["sns"] when the key is there. A JSON object keeps the last of
      repeated keys, so the last declaration wins. */
  function SnsTopics(policy: ResourcePolicy): (r: Option<seq<string>>)
    ensures r.Some? <==> exists i :: 0 <= i < |policy| && policy[i].SnsDecl?
    ensures r.Some? ==> exists i :: 0 <= i < |policy| && policy[i] == SnsDecl(r.value)
                                   && forall j :: i < j < |policy| ==> !policy[j].SnsDecl?
  {
    if policy == [] then None
    else
      var rest := SnsTopics(policy[1..]);
      assert forall j :: 1 <= j < |policy| ==> policy[j] == policy[1..][j - 1];
      if rest.Some? then rest
      else if policy[0].SnsDecl? then Some(policy[0].topics)
      else None
  }

  /** policy["s3"] when the key is there; the last declaration wins. */
  function S3Buckets(policy: ResourcePolicy): (r: Option<seq<BucketDecl>>)
    ensures r.Some? <==> exists i :: 0 <= i < |policy| && policy[i].S3Decl?
    ensures r.Some? ==> exists i :: 0 <= i < |policy| && policy[i] == S3Decl(r.value)
                                   && forall j :: i < j < |policy| ==> !policy[j].S3Decl?
  {
    if policy == [] then None
    else
      var rest := S3Buckets(policy[1..]);
      assert forall j :: 1 <= j < |policy| ==> policy[j] == policy[1..][j - 1];
      if rest.Some? then rest
      else if policy[0].S3Decl? then Some(policy[0].buckets)
      else None
  }
}
