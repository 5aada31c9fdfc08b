/** The glue templating of custormize_sns_glue and custormize_s3_glue: the
    imported sns_glue.py gets one publish_to_<topic> stub per declared topic
    and a TOPIC_NAMES table from topic to linked unit; the imported s3_glue.py
    gets a BUCKET_NAMES table from declared to deployed bucket name. */
module Glue {

  import opened Wrappers
  import Text
  import Convention
  import Resources

  const TopicStubsPlaceholder := "\"<<replaced>> publish_to_specified_topic\""
  const TopicNamesPlaceholder := "\"<<replaced>> topic_names_constants\""
  const BucketNamesPlaceholder := "\"<<replaced>> publish_to_specified_bucket\""

  /** The unindented heredoc for one topic. */
  function PublishStub(topic: string, linker: string): string
  {
    "def publish_to_" + topic + "(message):\n    publish(\"" + linker + "\", message)\n"
  }

  /** The stubs of `topics` for a unit of `feature`, in declaration order. */
  function Stubs(project: string, feature: string, topics: seq<string>): string
  {
    if topics == [] then ""
    else
      var t := topics[|topics| - 1];
      Stubs(project, feature, topics[..|topics| - 1]) + PublishStub(t, Convention.BuildName(project, feature, t))
  }

  /** The TOPIC_NAMES hash: each topic to its linked unit's deploy name. */
  function TopicNames(project: string, feature: string, topics: seq<string>): Text.Pairs
  {
    if topics == [] then []
    else
      var t := topics[|topics| - 1];
      Text.Store(TopicNames(project, feature, topics[..|topics| - 1]), t, Convention.BuildName(project, feature, t))
  }

  /** The feature the loop of custormize_sns_glue reads from the unit path. */
  function PathFeature(path: string): string
  {
    match Convention.SplitPath(path)
    case Ok(u) => u.feature
    case Err(_) => ""
  }

  /** The two substitutions on sns_glue.py, stubs first. */
  function SubstituteTopics(code: string, stubs: string, names: Text.Pairs): string
  {
    var withStubs := Text.ReplaceAll(code, TopicStubsPlaceholder, stubs);
    Text.ReplaceAll(withStubs, TopicNamesPlaceholder, "TOPIC_NAMES=" + Text.ToJson(names))
  }

  /** The customised sns_glue.py of the unit at `path` declaring `topics`. The
      path is split once per topic, so a path that does not split fails only
      when there is a topic. */
  function SnsGlue(code: string, project: string, path: string, topics: seq<string>): Result<string>
  {
    if topics != [] && Convention.SplitPath(path).Err? then Err(Convention.SplitPath(path).error)
    else
      var feature := PathFeature(path);
      Ok(SubstituteTopics(code, Stubs(project, feature, topics), TopicNames(project, feature, topics)))
  }

  /** custormize_sns_glue's rewrite of the file's text: the loop appends a
      stub and stores a TOPIC_NAMES entry per topic, then both placeholders
      are substituted. */
  method CustomizeSnsGlue(code: string, project: string, path: string, topics: seq<string>)
    returns (r: Result<string>)
    ensures r == SnsGlue(code, project, path, topics)
  {
    var publishMethods := "";
    var deployTopicNames: Text.Pairs := [];
    var i := 0;
    while i < |topics|
      invariant 0 <= i <= |topics|
      invariant i > 0 ==> Convention.SplitPath(path).Ok?
      invariant publishMethods == Stubs(project, PathFeature(path), topics[..i])
      invariant deployTopicNames == TopicNames(project, PathFeature(path), topics[..i])
    {
      var element := Convention.SplitPath(path);
      if element.Err? {
        return Err(element.error);
      }
      var linkerName := Convention.BuildName(project, element.value.feature, topics[i]);
      deployTopicNames := Text.Store(deployTopicNames, topics[i], linkerName);
      publishMethods := publishMethods + PublishStub(topics[i], linkerName);
      assert topics[..i + 1][..i] == topics[..i];
      i := i + 1;
    }
    assert topics[..i] == topics;
    var rewritten := Text.ReplaceAll(code, TopicStubsPlaceholder, publishMethods);
    rewritten := Text.ReplaceAll(rewritten, TopicNamesPlaceholder, "TOPIC_NAMES=" + Text.ToJson(deployTopicNames));
    r := Ok(rewritten);
  }

  /** TOPIC_NAMES maps exactly the declared topics, each to the deploy name of
      the sibling unit of the same feature, and lists each topic once. */
  lemma {:induction false} TopicNamesLookup(project: string, feature: string, topics: seq<string>, t: string)
    ensures Text.Lookup(TopicNames(project, feature, topics), t)
      == if t in topics then Some(Convention.BuildName(project, feature, t)) else None
    ensures Text.DistinctKeys(TopicNames(project, feature, topics))
    decreases |topics|
  {
    if topics != [] {
      var init := topics[..|topics| - 1];
      var last := topics[|topics| - 1];
      TopicNamesLookup(project, feature, init, t);
      Text.LookupStore(TopicNames(project, feature, init), last, Convention.BuildName(project, feature, last), t);
      Text.StoreDistinct(TopicNames(project, feature, init), last, Convention.BuildName(project, feature, last));
      assert topics == init + [last];
    }
  }

  /** The stubs of two topic lists one after the other are the stubs of the
      joined list. */
  lemma {:induction false} StubsAppend(project: string, feature: string, a: seq<string>, b: seq<string>)
    ensures Stubs(project, feature, a + b) == Stubs(project, feature, a) + Stubs(project, feature, b)
    decreases |b|
  {
    if b == [] {
      assert a + b == a;
    } else {
      var b', last := b[..|b| - 1], b[|b| - 1];
      var stub := PublishStub(last, Convention.BuildName(project, feature, last));
      assert (a + b)[..|a + b| - 1] == a + b' && (a + b)[|a + b| - 1] == last;
      assert Stubs(project, feature, a + b) == Stubs(project, feature, a + b') + stub;
      assert Stubs(project, feature, b) == Stubs(project, feature, b') + stub;
      StubsAppend(project, feature, a, b');
    }
  }

  /** Every declared topic gets its publish_to_<topic> stub, in declaration
      order, publishing to the sibling unit the topic is named after. */
  lemma StubOfEachTopic(project: string, feature: string, topics: seq<string>, i: nat)
    requires i < |topics|
    ensures Stubs(project, feature, topics)
      == Stubs(project, feature, topics[..i])
       + PublishStub(topics[i], Convention.BuildName(project, feature, topics[i]))
       + Stubs(project, feature, topics[i + 1..])
  {
    assert topics == topics[..i] + [topics[i]] + topics[i + 1..];
    StubsAppend(project, feature, topics[..i] + [topics[i]], topics[i + 1..]);
    StubsAppend(project, feature, topics[..i], [topics[i]]);
    assert [topics[i]][..0] == [];
  }

  // ---------------------------------------------------------------------------
  // s3_glue.py

  /** The BUCKET_NAMES hash: each declared bucket name to its deployed name. */
  function BucketNames(staging: bool, buckets: seq<Resources.BucketDecl>): Text.Pairs
  {
    if buckets == [] then []
    else
      var n := buckets[|buckets| - 1].name;
      Text.Store(BucketNames(staging, buckets[..|buckets| - 1]), n, Convention.BucketName(staging, n))
  }

  /** The customised s3_glue.py. */
  function S3Glue(code: string, staging: bool, buckets: seq<Resources.BucketDecl>): string
  {
    Text.ReplaceAll(code, BucketNamesPlaceholder, "BUCKET_NAMES = " + Text.ToJson(BucketNames(staging, buckets)))
  }

  /** custormize_s3_glue's rewrite of the file's text. */
  method CustomizeS3Glue(code: string, staging: bool, buckets: seq<Resources.BucketDecl>) returns (r: string)
    ensures r == S3Glue(code, staging, buckets)
  {
    var deployBucketNames: Text.Pairs := [];
    var i := 0;
    while i < |buckets|
      invariant 0 <= i <= |buckets|
      invariant deployBucketNames == BucketNames(staging, buckets[..i])
    {
      var name := buckets[i].name;
      var bucketName := if staging then Convention.StagingPrefix + name else name;
      deployBucketNames := Text.Store(deployBucketNames, name, bucketName);
      assert buckets[..i + 1][..i] == buckets[..i];
      i := i + 1;
    }
    assert buckets[..i] == buckets;
    r := Text.ReplaceAll(code, BucketNamesPlaceholder, "BUCKET_NAMES = " + Text.ToJson(deployBucketNames));
  }

  /** The names of the declared buckets. */
  function Names(buckets: seq<Resources.BucketDecl>): (r: seq<string>)
    ensures |r| == |buckets| && forall i :: 0 <= i < |r| ==> r[i] == buckets[i].name
  {
    if buckets == [] then [] else Names(buckets[..|buckets| - 1]) + [buckets[|buckets| - 1].name]
  }

  /** BUCKET_NAMES maps exactly the declared buckets, each to the bucket the
      deployment creates for it (prefixed with "staging-" in staging mode). */
  lemma {:induction false} BucketNamesLookup(staging: bool, buckets: seq<Resources.BucketDecl>, n: string)
    ensures Text.Lookup(BucketNames(staging, buckets), n)
      == if n in Names(buckets) then Some(Convention.BucketName(staging, n)) else None
    ensures Text.DistinctKeys(BucketNames(staging, buckets))
    decreases |buckets|
  {
    if buckets != [] {
      var init := buckets[..|buckets| - 1];
      var last := buckets[|buckets| - 1].name;
      BucketNamesLookup(staging, init, n);
      Text.LookupStore(BucketNames(staging, init), last, Convention.BucketName(staging, last), n);
      Text.StoreDistinct(BucketNames(staging, init), last, Convention.BucketName(staging, last));
      assert Names(buckets) == Names(init) + [last];
    }
  }
}
