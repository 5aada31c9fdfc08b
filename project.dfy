/** What a deployment run reads from the repository besides the unit
    directories themselves: the project name, the mode, the deploy
    directory's own configuration files, the shared libraries under deliver/,
    every unit's parsed configuration files, and the directory listings the
    enumeration walks. */
module Project {

  import opened Wrappers
  import Settings
  import Resources
  import Workspace
  import Cloud

  /** The parsed configuration files of one unit directory (.lambda.json,
      .vpc.json, .policy.json, .import.json); an absent file reads as its
      empty value, as the get_*_config readers answer {}. */
  datatype UnitConfig = UnitConfig(
    lambda: Settings.LambdaConfig, vpc: Cloud.VpcConfig, policy: Resources.ResourcePolicy, imports: seq<string>)

  const NoConfig := UnitConfig(map[], map[], [], [])

  /** The role every staging unit runs under. */
  const StagingRole := "adamas-staging-role"

  datatype Setup = Setup(
    /** The base name of the directory above the deploy directory. */
    project: string,
    /** The test flag: staging mode. */
    staging: bool,
    /** The deploy directory's .policy.json: the policy ARNs every role gets;
        None when the file is absent, which makes open raise. */
    commonPolicies: Option<seq<string>>,
    /** .ignore.json: the top-level entries that are not features; None when
        the file is absent. */
    ignores: Option<seq<string>>,
    /** The queues that have an entry under "sqs" in .resource.json. */
    queueSettings: set<string>,
    /** .database.json: the database record per mode; None when absent. */
    databases: Option<map<string, string>>,
    /** deliver/<lib>: the shared libraries. */
    libraries: map<string, Workspace.Files>,
    /** The configuration of each unit directory, by path. */
    units: map<string, UnitConfig>,
    /** Dir.entries of each directory, by path, "." and ".." included. */
    listings: map<string, seq<string>>)

  function UnitAt(s: Setup, path: string): UnitConfig
  {
    if path in s.units then s.units[path] else NoConfig
  }

  /** The unit directories on disk and the provider account. */
  datatype World = World(disk: map<string, Workspace.Files>, cloud: Cloud.CloudState)
}
