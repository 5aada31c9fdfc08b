/** Naming conventions of the deployment script: the deploy name
    "<project>-<feature>-<action>" of a unit, the unit directory
    "../<feature>/<action>", and the names derived from them. */
module Convention {

  import opened Wrappers
  import Text

  /** The project/feature/action hash that split and split_path return. */
  datatype Unit = Unit(project: string, feature: string, action: string)

  const NameSeparator := '-'
  const PathSeparator := '/'

  /** build_name: the deploy name of the unit `feature`/`action` of `project`. */
  function BuildName(project: string, feature: string, action: string): string
  {
    project + [NameSeparator] + feature + [NameSeparator] + action
  }

  /** The tokens of a Ruby split transposed with ["project", "feature",
      "action"]; Array#transpose raises IndexError unless there are exactly
      three of them. */
  function Transpose(whole: string, tokens: seq<string>): Result<Unit>
  {
    if |tokens| == 3 then Ok(Unit(tokens[0], tokens[1], tokens[2]))
    else Err(MalformedName(whole))
  }

  /** split: a deploy name back into its three parts. */
  function Split(name: string): Result<Unit>
  {
    Transpose(name, Text.Split(name, NameSeparator))
  }

  /** split_path: a unit directory path into three parts; for "../f/a" the
      "project" part is "..". */
  function SplitPath(path: string): Result<Unit>
  {
    Transpose(path, Text.Split(path, PathSeparator))
  }

  /** to_path: the directory of the unit a deploy name stands for. */
  function ToPath(name: string): Result<string>
  {
    match Split(name)
    case Ok(u) => Ok("../" + u.feature + [PathSeparator] + u.action)
    case Err(e) => Err(e)
  }

  /** The part of a name that may appear in a deploy name and still split back. */
  predicate Token(s: string)
  {
    NameSeparator !in s
  }

  /** A unit whose parts survive the round trip through its deploy name. */
  predicate WellFormed(u: Unit)
  {
    Token(u.project) && Token(u.feature) && Token(u.action) && u.action != ""
  }

  /** Splitting a deploy name built from separator-free parts gives the parts
      back. The action must be non-empty because Ruby drops a trailing empty
      field. */
  lemma SplitBuildName(project: string, feature: string, action: string)
    requires WellFormed(Unit(project, feature, action))
    ensures Split(BuildName(project, feature, action)) == Ok(Unit(project, feature, action))
  {
    Text.SplitJoinThree(project, feature, action, NameSeparator);
  }

  /** Conversely, a name that splits is the deploy name of its parts, possibly
      followed by separators that the split ignores: "p-f-a-" also splits to
      p, f and a, so the mapping is not injective. */
  lemma SplitSound(name: string)
    requires Split(name).Ok?
    ensures WellFormed(Split(name).value)
    ensures var u := Split(name).value;
      exists n: nat :: name == BuildName(u.project, u.feature, u.action) + Text.Repeat(NameSeparator, n)
  {
    var t := Text.Split(name, NameSeparator);
    assert t == [t[0], t[1], t[2]];
    Text.SplitThree(name, NameSeparator, t[0], t[1], t[2]);
  }

  /** to_path of a deploy name is the unit's directory. */
  lemma ToPathBuildName(project: string, feature: string, action: string)
    requires WellFormed(Unit(project, feature, action))
    ensures ToPath(BuildName(project, feature, action)) == Ok("../" + feature + "/" + action)
  {
    SplitBuildName(project, feature, action);
  }

  /** split_path of the directory to_path gives recovers the feature and the
      action, which is how the glue templating finds the feature. */
  lemma SplitPathOfToPath(name: string)
    requires Split(name).Ok?
    requires PathSeparator !in Split(name).value.feature && PathSeparator !in Split(name).value.action
    ensures ToPath(name).Ok?
    ensures SplitPath(ToPath(name).value) == Ok(Unit("..", Split(name).value.feature, Split(name).value.action))
  {
    var u := Split(name).value;
    SplitSound(name);
    Text.SplitJoinThree("..", u.feature, u.action, PathSeparator);
    assert "../" + u.feature + [PathSeparator] + u.action == ".." + [PathSeparator] + u.feature + [PathSeparator] + u.action;
  }

  /** The argument of -function=<feature>-<action> as deploy_single_function
      reads it: the first two fields of the split; a missing field reads as nil,
      which string interpolation turns into "". */
  function FunctionArgument(arg: string): (string, string)
  {
    var t := Text.Split(arg, NameSeparator);
    (if |t| > 0 then t[0] else "", if |t| > 1 then t[1] else "")
  }

  /** The argument "<feature>-<action>" is read back as that feature and action. */
  lemma FunctionArgumentOf(feature: string, action: string)
    requires Token(feature) && Token(action) && action != ""
    ensures FunctionArgument(feature + [NameSeparator] + action) == (feature, action)
  {
    Text.SplitTwo(feature, action, NameSeparator);
  }

  /** The prefix of every bucket name in staging mode. */
  const StagingPrefix := "staging-"

  /** The bucket a declared S3 name stands for: prefixed in staging mode. */
  function BucketName(staging: bool, name: string): (r: string)
    ensures staging ==> Text.StartsWith(r, StagingPrefix) && r[|StagingPrefix|..] == name
    ensures !staging ==> r == name
  {
    if staging then StagingPrefix + name else name
  }

  /** Two declared buckets never share a deployed bucket. */
  lemma BucketNameInjective(staging: bool, a: string, b: string)
    requires BucketName(staging, a) == BucketName(staging, b)
    ensures a == b
  {
    if staging {
      assert a == BucketName(staging, a)[|StagingPrefix|..];
    }
  }

  /** The unit an SNS topic of `sender` links to: the sibling unit of the same
      feature whose action is the topic name. */
  function LinkerName(project: string, sender: string, topic: string): Result<string>
  {
    match Split(sender)
    case Ok(u) => Ok(BuildName(project, u.feature, topic))
    case Err(e) => Err(e)
  }

  /** A topic declared by unit `feature`/`action` is named after the unit
      `feature`/`topic`, which splits back to the same project and feature. */
  lemma LinkerNameIsSibling(project: string, feature: string, action: string, topic: string)
    requires WellFormed(Unit(project, feature, action)) && Token(topic) && topic != ""
    ensures LinkerName(project, BuildName(project, feature, action), topic) == Ok(BuildName(project, feature, topic))
    ensures Split(LinkerName(project, BuildName(project, feature, action), topic).value) == Ok(Unit(project, feature, topic))
  {
    SplitBuildName(project, feature, action);
    SplitBuildName(project, feature, topic);
  }
}
