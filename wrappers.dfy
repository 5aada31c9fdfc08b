/** Option and Result values for the deployment model, and the failures a
    deployment step can signal. */
module Wrappers {

  datatype Option<+T> = None | Some(value: T)

  /** Why a step of the deployment stopped. Each case stands for an exception
      that the Ruby script does not rescue, so it ends the whole run: neither
      deploy_feature nor deploy_all_functions catches it. */
  datatype Fault =
    | NoSuchEntity(what: string)       // a provider lookup of a missing role, function, policy or table
    | AlreadyExists(what: string)      // a provider create of something that is already there
    | LimitExceeded(what: string)      // a managed policy that already has the most versions allowed
    | DeleteConflict(what: string)     // deleting the default version of a managed policy
    | MalformedName(name: string)      // a deploy name that does not split into three tokens
    | InvalidName(what: string)        // a bucket, topic or queue name the provider refuses
    | UnsupportedKind(kind: string)    // a resource kind with no link_resource_<kind> handler
    | MissingSetting(what: string)     // an index into a configuration hash that is not there
    | NotADirectory(path: string)      // a directory listing of a path that is not a directory

  datatype Result<+T> = Ok(value: T) | Err(error: Fault)
}
