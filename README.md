# Conventional deployment of serverless units, modelled in Dafny

The deployment script of wp_alexa deploys a project made of *units*. A unit
is the directory `../<feature>/<action>`, and its function is called
`<project>-<feature>-<action>`. `ConventionallyDeployment` deploys each unit
in four steps:

1. it makes sure the unit's IAM role exists;
2. it attaches the common policies;
3. it packages the directory with its imported libraries, including
   customising the SNS and S3 glue scripts, then creates or updates the
   function;
4. it links the function to the S3 buckets, SNS topics, DynamoDB tables and
   SQS queues its `.policy.json` declares. The statements built along the
   way go into the unit's own managed policy, which is then attached to the
   role.

In staging mode the run uses a shared role and never touches IAM. The
`PolicyDoc` mix-in builds the policy and permission records.

## How the model is built

- **The provider account** is a value, `Cloud.CloudState`. It holds roles,
  managed policies and their versions, role/policy attachments, functions
  and their invoke permissions, buckets, topics, subscriptions, queues and
  tables. It also holds the names the provider refuses for a new bucket,
  topic or queue, and the counter behind the random statement ids. Every
  provider call the script makes is a function on that value returning the
  new state and an outcome. The outcome is a `Result` whose error stands for
  the exception the SDK raises.
- **The unit directories** are a map from path to the directory's files. The
  configuration files the run reads are fields of `Project.Setup`: the
  common policies, the ignore list, the queue entries of `.resource.json`,
  the database records, the libraries under `deliver/`, each unit's parsed
  `.lambda.json`/`.vpc.json`/`.import.json`/`.policy.json`, and the
  directory listings.
- **Each operation of the script is a pure function** in `Roles`,
  `Functions`, `Links`, `Workspace`, `Glue` or `Pipeline`. Lemmas about
  those functions state what the operation achieves.
- **`Deploy.Deployment`** is the object itself. Its fields are the run's
  configuration (fixed), the unit directories and the account. Its methods
  do the work one provider call at a time, with the script's loops. Each
  method is proved to end in exactly the state, and with the outcome, that
  the corresponding function describes.
- **Raised exceptions** are modelled as `Err`. The first error ends the
  operation, as an uncaught exception ends the script. A `rescue` in the
  script is modelled by the branch it takes.

## Model

| member | source | states |
|---|---|---|
| Convention.SplitBuildName | deploy/deploy.rb:621-633 | for a project, feature and action without `-` (action non-empty), split of build_name gives back exactly those three parts |
| Convention.SplitSound | deploy/deploy.rb:630-633 | a name that split accepts is the build_name of its parts, possibly followed by `-` characters that Ruby's split drops, and its parts are well formed |
| Convention.ToPathBuildName | deploy/deploy.rb:621-628 | to_path of the deploy name of a well-formed unit is `../<feature>/<action>` |
| Convention.SplitPathOfToPath | deploy/deploy.rb:625-638 | for a name that splits into parts free of `/`, split_path of to_path recovers `..`, the feature and the action |
| Convention.FunctionArgumentOf | deploy/deploy.rb:195-196 | the argument `<feature>-<action>` is read back as that feature and that action |
| Convention.BucketName | deploy/deploy.rb:345 | in staging mode the bucket name is `staging-` followed by the declared name; otherwise it is the declared name |
| Convention.BucketNameInjective | deploy/deploy.rb:345 | two different declared bucket names never map to the same deployed bucket |
| Convention.LinkerNameIsSibling | deploy/deploy.rb:377-379 | a topic declared by `<feature>/<action>` is named after the unit `<feature>/<topic>` of the same project, and that name splits back into those parts |
| PolicyDoc.SidOf | deploy/policy_doc.rb:24 | every statement id is 32 lower-case hexadecimal digits, like SecureRandom.hex(16) |
| PolicyDoc.Hex | deploy/policy_doc.rb:24 | the id rendering has the requested width and only hexadecimal digits |
| PolicyDoc.PolicyTemplate | deploy/policy_doc.rb:8-13 | the template has version 2012-10-17 and no statement |
| PolicyDoc.AssumeRolePolicyDoc | deploy/policy_doc.rb:15-20 | the trust document has version 2012-10-17 and exactly one statement: Allow, principal service lambda.amazonaws.com, action sts:AssumeRole |
| PolicyDoc.PolicyDocShape | deploy/policy_doc.rb:22-56 | every resource statement allows, keeps the given id, has the given ARN list unchanged as its resources, and carries its kind's fixed action list; the actions are distinct and all in the kind's service namespace |
| PolicyDoc.RegionIgnored | deploy/policy_doc.rb:31-56 | the region argument of the SNS, DynamoDB and SQS builders never changes the statement |
| PolicyDoc.SnsLambdaPermission | deploy/policy_doc.rb:58-66 | the permission has action lambda:InvokeFunction, principal sns.amazonaws.com, and the given function, topic ARN and id |
| PolicyDoc.S3LambdaPermission | deploy/policy_doc.rb:68-76 | the permission has action lambda:InvokeFunction, principal s3.amazonaws.com, and the given function, bucket ARN and id |
| Settings.Resolve | deploy/deploy.rb:281-284 | memory is the configured value or 128, env is the configured value or empty, a configured timeout is kept, and an empty configuration gets timeout 3 |
| Settings.TimeoutNilExactly | deploy/deploy.rb:282 | the timeout is nil, and so left out of the request, exactly when the configuration is non-empty and has no timeout key |
| Settings.Created | deploy/deploy.rb:286-305 | create_function stores the sent settings, with the service's 3-second default in place of a timeout left out |
| Settings.Updated | deploy/deploy.rb:309-315 | update_function_configuration stores the sent settings but keeps the present timeout when the request leaves it out |
| Settings.CreatedTimeout | deploy/deploy.rb:282-305 | a new function runs with the configured timeout, or with 3 seconds when the configuration sets none, empty or not |
| Settings.UpdatedTimeout | deploy/deploy.rb:282-315 | an updated function takes the configured timeout; without one it gets 3 seconds only for an empty configuration and keeps its present timeout otherwise |
| Settings.UpdatedTwice | deploy/deploy.rb:309-315 | sending the same settings twice stores what sending them once stores |
| Settings.UpdatedAfterCreated | deploy/deploy.rb:292-315 | updating a new function with the settings it was created with changes none of them |
| Settings.DatabaseConfig | deploy/deploy.rb:564-573 | without .database.json the description is empty; otherwise it is the record of the current mode (test or release), or `null` when that record is missing |
| Settings.Description | deploy/deploy.rb:280 | an updated function's description is the database record when dbconf.py exists, and the function's name otherwise |
| Resources.SnsTopics | deploy/deploy.rb:491-492 | the topic list is present exactly when .policy.json has an `sns` key, and is the value of the last such key, as a parsed JSON object keeps it |
| Resources.S3Buckets | deploy/deploy.rb:517-518 | the bucket list is present exactly when .policy.json has an `s3` key, and is the value of the last such key |
| Glue.CustomizeSnsGlue | deploy/deploy.rb:492-508 | the loop that appends one stub per topic and then substitutes both placeholders computes the customised script |
| Glue.TopicNamesLookup | deploy/deploy.rb:494-508 | TOPIC_NAMES has distinct keys; it maps a name exactly when the name is a declared topic, and maps it to the deploy name of the sibling unit of that topic |
| Glue.StubsAppend | deploy/deploy.rb:505 | the stubs of two topic lists are the stubs of the first followed by the stubs of the second |
| Glue.StubOfEachTopic | deploy/deploy.rb:500-505 | every declared topic has its publish_to_<topic> stub, publishing to the sibling unit, at its place in declaration order |
| Glue.CustomizeS3Glue | deploy/deploy.rb:518-540 | the loop that fills BUCKET_NAMES and substitutes the placeholder computes the customised script |
| Glue.Names | deploy/deploy.rb:521-522 | the names are the declared buckets' names, in order |
| Glue.BucketNamesLookup | deploy/deploy.rb:520-540 | BUCKET_NAMES has distinct keys; it maps a name exactly when a bucket of that name is declared, and maps it to that bucket's deployed name (with the staging prefix in staging mode) |
| Text.SplitThree | deploy/deploy.rb:630-633 | a Ruby split into three fields means the string is those fields joined by the separator, the last one non-empty, followed only by separators |
| Text.SplitJoinThree | deploy/deploy.rb:630-638 | three separator-free fields joined by the separator, the last non-empty, split back into those fields |
| Text.JoinFields | deploy/deploy.rb:630-633 | joining the fields of a string with the separator gives back the string |
| Text.ReplaceOnce | deploy/deploy.rb:507-508 | gsub of a placeholder that occurs once replaces exactly that occurrence |
| Text.ReplaceAbsent | deploy/deploy.rb:507-508 | gsub of a placeholder that does not occur leaves the text as it is |
| Text.LookupStore | deploy/deploy.rb:499 | after `h[k] = v`, k maps to v and every other key keeps its value |
| Text.StoreDistinct | deploy/deploy.rb:499 | storing keeps the hash's keys distinct, and a new key is appended at the end |
| Workspace.Visible | deploy/deploy.rb:476 | the glob copies only entries the library has |
| Workspace.CopyKeeps | deploy/deploy.rb:471-484 | importing libraries into a directory without glue scripts succeeds, keeps every file the libraries do not provide, and adds only library entries |
| Workspace.RemoveAll | deploy/deploy.rb:612-617 | when every imported library exists, clean's loop removes exactly the libraries' entries |
| Workspace.CleanRestores | deploy/deploy.rb:471-619 | packaging and then cleaning gives back the directory exactly when the directory shares no entry with the imported libraries and has no app.zip |
| Roles.CreateRoleOutcome | deploy/deploy.rb:250-258 | outside staging mode the role of the unit's name exists afterwards, is created with the trust document only when it was missing, and a second call changes nothing and answers the same role |
| Roles.StagingSkipsIam | deploy/deploy.rb:244-248 | in staging mode create_role answers the shared staging role without touching the account, and attach_policy changes nothing |
| Roles.AttachAllOutcome | deploy/deploy.rb:439-442 | for an existing role, the common-policy loop adds exactly the listed attachments; for a missing role, the first attachment fails and nothing changes |
| Roles.PruneFrom | deploy/deploy.rb:447 | the deletion loop over the listed versions succeeds and removes exactly the non-default ones, keeping the order of the rest |
| Roles.UpsertPolicyOutcome | deploy/deploy.rb:444-457 | writing the unit's document either prunes an existing well-formed policy and adds the document as its single default version, or creates the policy; either way the policy stays well-formed and its ARN is answered |
| Roles.UpsertExisting | deploy/deploy.rb:445-448 | on an existing well-formed policy, the begin block leaves the document as the only default version and keeps the policy well-formed |
| Roles.PruneThenVersion | deploy/deploy.rb:447-448 | on a well-formed policy, pruning succeeds and leaves only the default version; create_version then succeeds and gives the written policy |
| Roles.VersionOverDefault | deploy/deploy.rb:448 | create_version with set_as_default on a policy reduced to its default version demotes that version and adds the document as the new default |
| Roles.DeleteNonDefault | deploy/deploy.rb:447 | deleting a non-default version succeeds and removes exactly that version, keeping the others in order |
| Roles.AttachUniqueOutcome | deploy/deploy.rb:444-460 | the unit's own policy is written and its ARN attached to the role |
| Roles.AttachPolicyOutcome | deploy/deploy.rb:427-468 | outside staging mode, for an existing role, attach_policy succeeds; it attaches the common policies, the unit's own policy when the document has statements, and the VPC access policy exactly when .vpc.json is not empty |
| Roles.AttachOwnPolicy | deploy/deploy.rb:436-461 | for an existing role, the steps before the VPC step succeed: they add the common attachments, and write and attach the unit's own policy when the document has statements |
| Roles.AttachVpcOutcome | deploy/deploy.rb:463-467 | the VPC access policy is attached exactly when the unit's .vpc.json is not empty |
| Roles.AttachPolicyKeepsPolicyWellFormed | deploy/deploy.rb:444-461 | the unit's policy stays well-formed, and after a document with statements, that document is its only default version |
| Roles.AttachPolicyMissingRole | deploy/deploy.rb:436-442 | with common policies and a missing role, attach_policy fails without changing the account |
| Roles.AttachPolicyFrame | deploy/deploy.rb:427-468 | whatever happens, attach_policy changes only managed policies and adds attachments, never removing one |
| Functions.UploadCreates | deploy/deploy.rb:286-305 | a missing function is created with the role's ARN, the fixed handler and runtime, the resolved settings (its timeout being the configured one, or else 3 seconds), the database record as its description (overriding the name), and a VPC configuration exactly outside staging mode; it starts without any invoke permission |
| Functions.UploadUpdates | deploy/deploy.rb:306-317 | an existing function gets the new code, role, description and settings; its handler, runtime and VPC configuration stay as they were, and its timeout is the configured one, 3 for an empty configuration, or else the one it had |
| Functions.UploadMissingRole | deploy/deploy.rb:286-317 | when the role is missing, the upload fails; a missing function is not created, and an existing one has already received the new code |
| Functions.RedeployChangesOnlyDescription | deploy/deploy.rb:286-317 | deploying the same code again succeeds and changes nothing but the description, which switches from the created one to the update rule's |
| Functions.UploadSucceeds | deploy/deploy.rb:286-317 | with an existing role, the upload succeeds and the function holds the packaged code and runs under that role |
| Functions.UploadAndCleanOutcome | deploy/deploy.rb:268-320 | with an existing role and a clean that succeeds, the function is deployed with the packaged code (without app.zip) and the directory is the cleaned one |
| Functions.DeployLambdaRestoresDirectory | deploy/deploy.rb:262-321 | for a directory without glue scripts, app.zip or library entries, whose imports all exist: deploy_lambda_function succeeds, the function runs under the role and holds every file of the directory, and the directory ends as it was |
| Functions.PrepareThenClean | deploy/deploy.rb:262-321 | for such a directory, packaging succeeds, cleaning gives back the directory, and the code holds every file of the directory |
| Functions.DeployLambdaFrame | deploy/deploy.rb:262-321 | deploy_lambda_function changes only functions and the deployed function's own permissions, which are kept for an existing function and empty for a newly created one |
| Functions.UploadFrame | deploy/deploy.rb:286-317 | the upload changes only functions and the uploaded function's permissions: kept on update, empty after a create |
| Functions.UploadAndCleanOverwrites | deploy/deploy.rb:268-269 | writing app.zip makes the result independent of what the directory held before packaging |
| Links.BucketResources | deploy/deploy.rb:342-368 | the S3 statement's resources are `arn:aws:s3:::<bucket>/*` for each declared bucket, in order, with the staging prefix in staging mode |
| Links.LastEventSource | deploy/deploy.rb:354 | the last bucket with the `is_event_source` key is found exactly when some bucket has the key |
| Links.ClearAll | deploy/deploy.rb:355-359 | removing every listed statement of a function's policy succeeds, leaves the function with no permission, and changes nothing else |
| Links.LinkEventSource | deploy/deploy.rb:343-366 | for a deployed function that already has a policy, a bucket with the `is_event_source` key, whatever its value, is created unless its name is refused, and the function ends with exactly the one new S3 invoke permission, granted even for a refused bucket; nothing else changes |
| Links.LinkDataStore | deploy/deploy.rb:346-366 | a bucket without the key is only created (a failure is rescued, and a refused name creates nothing) and its object ARN is answered either way |
| Links.CreateBucketAnyway | deploy/deploy.rb:346-352 | create_bucket raises exactly for a refused name or an existing bucket; after the rescue the bucket exists unless its name is refused, and nothing else changes |
| Links.LinkBucketsOutcome | deploy/deploy.rb:343-368 | for a deployed function that has a policy when some bucket is an event source, the S3 loop answers the resources of every declared bucket, creates each bucket whose name is not refused, keeps IAM and functions, and leaves the permissions as they were without an event source, and otherwise only the last event-source bucket's permission |
| Links.LinkEventSourceNoPolicy | deploy/deploy.rb:355 | an event-source bucket fails when the function is not deployed or has no permission, because get_policy raises |
| Links.LinkBucketsNoPolicy | deploy/deploy.rb:343-366 | for a function without any permission, the S3 loop fails as soon as some declared bucket is an event source |
| Links.LinkBucketsResources | deploy/deploy.rb:343-368 | a successful S3 loop answers `arn:aws:s3:::<bucket>/*` for every declared bucket, in order, whatever the buckets and permissions were |
| Links.TopicResources | deploy/deploy.rb:376-394 | the SNS statement's resources are the ARN of each declared topic's linker name, in order |
| Links.LinkTopicOutcome | deploy/deploy.rb:379-391 | a refused topic name raises and changes nothing; otherwise the topic is created and its ARN answered, a deployed linker function is subscribed and gains one SNS invoke permission with the next fresh id, a missing one does not abort the link, and no other function's permissions change |
| Links.LinkTopicsOutcome | deploy/deploy.rb:378-392 | the SNS loop fails exactly when some topic name is refused; otherwise it creates every declared topic, answers their ARNs in order and subscribes each deployed linker; it keeps IAM and functions, only extends permissions, and touches only the linkers' |
| Links.TopicResourcesFrame | deploy/deploy.rb:380-391 | topic ARNs depend only on the region and the account |
| Links.LinkTopicsNaming | deploy/deploy.rb:378-392 | the SNS loop keeps the region, account and tables the ARNs are built from |
| Links.LinkSnsOutcome | deploy/deploy.rb:372-395 | link_resource_sns fails exactly when the sender's name does not split or some topic name is refused; otherwise its statement covers every topic ARN, with the SNS actions and a well-formed id |
| Links.LinkSnsRefusedTopic | deploy/deploy.rb:380 | create_topic is not rescued: one refused topic name fails link_resource_sns |
| Links.TableArns | deploy/deploy.rb:401-404 | the table loop succeeds exactly when every table exists, and answers their ARNs in order |
| Links.LinkQueuesOutcome | deploy/deploy.rb:414-422 | the SQS loop succeeds exactly when every queue has its entry in .resource.json and a name the provider accepts; it answers each queue's ARN in order, every queue exists afterwards, and IAM and functions are kept |
| Links.LinkDeclarationShape | deploy/deploy.rb:338-425 | a key without a handler fails without changing the account; a handler's statement is its kind's builder statement with a well-formed id |
| Links.LinkDeclarationResources | deploy/deploy.rb:338-425 | every handler keeps the region, account and tables, and a successful one builds its statement over the declaration's resources |
| Links.LinkDeclarationsResources | deploy/deploy.rb:328-333 | the collected statements are, key by key, over the resources each key declares, read off the account before the loop |
| Links.LinkDeclarationKeepsIam | deploy/deploy.rb:338-425 | no handler changes roles, managed policies, attachments or functions |
| Links.BucketsKeepIam | deploy/deploy.rb:343-367 | the S3 loop changes no IAM entity and no function, removes no bucket, and when it succeeds every declared bucket whose name is not refused exists |
| Links.BucketKeepsIam | deploy/deploy.rb:343-367 | one bucket changes no IAM entity and no function, and adds exactly that bucket unless its name is refused |
| Links.ClearKeepsIam | deploy/deploy.rb:356-359 | clearing permissions changes nothing but permissions |
| Links.LinkDeclarationsOutcome | deploy/deploy.rb:328-333 | link_resource collects one statement per key, in order, each with its kind's actions and over the resources the key declares (bucket objects, sibling topics, table ARNs, queue ARNs); a key without a handler makes it fail; IAM and functions are kept |
| Links.LinkResourceStaging | deploy/deploy.rb:324-335 | in staging mode link_resource changes no IAM entity |
| Links.LinkResourceFrame | deploy/deploy.rb:324-335 | link_resource keeps roles and functions and never removes an attachment |
| Links.LinkResourceOutcome | deploy/deploy.rb:324-335 | outside staging mode, with an existing role and links that succeed, link_resource succeeds; when keys are declared, the unit's policy is well-formed and its only default version holds one collected statement per key, each over the resources its key declares |
| Pipeline.Features | deploy/deploy.rb:215-217 | the features are exactly the entries not listed in .ignore.json |
| Pipeline.FeaturesInOrder | deploy/deploy.rb:215-217 | the features are the entries not listed in .ignore.json, each at an increasing position of the listing: the select keeps their order |
| Pipeline.SingleFunctionIsUnit | deploy/deploy.rb:191-200 | `<feature>-<action>` deploys exactly the unit feature/action |
| Pipeline.DeployFunctionStaging | deploy/deploy.rb:227-239 | in staging mode, deploying a unit changes no role, managed policy or attachment |
| Pipeline.DeployActionsStaging | deploy/deploy.rb:203-205 | in staging mode, deploying the units of a feature changes no IAM entity |
| Pipeline.DeployFeaturesStaging | deploy/deploy.rb:219 | in staging mode, deploying a list of features changes no IAM entity |
| Pipeline.DeployAllStaging | deploy/deploy.rb:209-223 | a staging run over the whole project changes no role, managed policy or attachment |
| Pipeline.DeployFunctionOutcome | deploy/deploy.rb:227-239 | outside staging mode, for a clean unit directory: the directory ends as it was, a role of the unit's name exists with every common policy attached, and the function runs under that role with every file of the directory, whatever link_resource then does |
| Pipeline.DeployFunctionFirstEventSource | deploy/deploy.rb:227-239 | a unit deployed for the first time whose first resource key is S3 with an event-source bucket fails, since its new function has no policy for get_policy to return |
| Deploy.Deployment.constructor | deploy/deploy.rb:182-188 | the object starts with the given configuration, directories and account |
| Deploy.Deployment.DeploySingleFunction | deploy/deploy.rb:191-200 | the new directories, account and outcome are those of the deploy_single_function function |
| Deploy.Deployment.DeployFeature | deploy/deploy.rb:202-206 | the loop over the directory's entries ends as deploy_feature's function, stopping at the first failure |
| Deploy.Deployment.DeployAllFunctions | deploy/deploy.rb:209-223 | selection of features, then the loop over them, ends as deploy_all_functions' function |
| Deploy.SelectFeatures | deploy/deploy.rb:215-217 | the select loop computes the entries not in the ignore list, in order |
| Deploy.Deployment.DeployFunction | deploy/deploy.rb:227-239 | the four steps end as deploy_function's function |
| Deploy.Deployment.CreateRole | deploy/deploy.rb:241-259 | lookup-or-create ends as create_role's function; the directories are untouched |
| Deploy.Deployment.AttachPolicy | deploy/deploy.rb:427-468 | the common-policy loop, the unit's own policy and the VPC step end as attach_policy's function |
| Deploy.Deployment.UpsertPolicy | deploy/deploy.rb:444-457 | the begin/rescue block ends as the function that writes the unit's document |
| Deploy.Deployment.PruneVersions | deploy/deploy.rb:447 | the deletion loop over the versions ends as the pruning function |
| Deploy.Deployment.DeployLambdaFunction | deploy/deploy.rb:262-321 | packaging, upload and clean end as deploy_lambda_function's function |
| Deploy.Deployment.UploadAndClean | deploy/deploy.rb:268-320 | writing app.zip, the upload and clean end as the function for those steps |
| Deploy.Deployment.Upload | deploy/deploy.rb:274-317 | get_function, then create or update, ends as the upload function; the directories are untouched |
| Deploy.Deployment.CopyImportsLibs | deploy/deploy.rb:471-484 | the loop over .import.json ends as copy_imports_libs' function |
| Deploy.Deployment.ImportLibrary | deploy/deploy.rb:475-481 | one import (copy, then the library's customisation) ends as the import function; the account is untouched |
| Deploy.Deployment.CustomizeSnsGlue | deploy/deploy.rb:487-511 | sns_glue.py is rewritten as the customisation function says, or the failure is reported with the directory untouched |
| Deploy.Deployment.CustomizeS3Glue | deploy/deploy.rb:514-543 | s3_glue.py is rewritten as the customisation function says |
| Deploy.Deployment.Clean | deploy/deploy.rb:608-619 | deleting app.zip and then every library's entries ends as clean's function |
| Deploy.Deployment.LinkResource | deploy/deploy.rb:324-335 | collecting the statements, then attach_policy, ends as link_resource's function |
| Deploy.Deployment.CollectStatements | deploy/deploy.rb:328-333 | the loop over the keys ends as the collecting function |
| Deploy.Deployment.LinkDeclaration | deploy/deploy.rb:330 | the send to link_resource_<key> ends as the handler function |
| Deploy.Deployment.LinkResourceS3 | deploy/deploy.rb:338-369 | the bucket loop and the statement end as link_resource_s3's function |
| Deploy.Deployment.LinkBucket | deploy/deploy.rb:344-366 | one bucket, including the permission reset, ends as the bucket function |
| Deploy.Deployment.LinkResourceSns | deploy/deploy.rb:372-395 | the topic loop and the statement end as link_resource_sns's function |
| Deploy.Deployment.LinkResourceDynamodb | deploy/deploy.rb:397-408 | the describe_table loop and the statement end as link_resource_dynamodb's function |
| Deploy.TableArnsFirstMissing | deploy/deploy.rb:401-403 | the first table that does not exist decides the error |
| Deploy.Deployment.LinkResourceSqs | deploy/deploy.rb:410-425 | the queue loop and the statement end as link_resource_sqs's function |

## Left out

- Logging (`puts`), reading and parsing the JSON configuration files, `Dir.entries`, `FileUtils.cp_r`/`rm_rf` and `File.read`/`write`: the parsed contents are fields of `Project.Setup`, the directories are maps from entry name to content, and copying and removing are map operations.
- Clean: `rm_rf` entry by entry is modelled as one set difference per library.
- The archive: `ZipGenerator` is not part of this model. `app.zip` has a fixed placeholder content, and the uploaded code is the directory's files without it.
- JSON rendering: `to_json` of the policy documents is not modelled, so a document is a value, not text. The TOPIC_NAMES and BUCKET_NAMES hashes are rendered without string escaping.
- The glue substitutions: `gsub!` is modelled with a literal pattern. A backslash or `\0` in the replacement, which Ruby would interpret, is taken literally.
- Ruby's `split` drops trailing empty fields. The model does this too, but it does not model splitting with an empty string or a limit.
- Deploy.Deployment.LinkResourceSqs: the `DelaySeconds` value is computed but never passed to create_queue, so it does not affect the account. The model keeps only the failure of its lookup for a queue that `.resource.json` does not list.
- Provider failures other than those named in the model are not modelled: network errors, throttling and permission errors. A call fails only for the reasons the model names: a missing or existing entity, a refused name, a policy with the most versions allowed, or the deletion of a default version. The success cases of the lemmas therefore assume a provider that answers.
- attach_role_policy is not checked against the managed policies that exist: the model fails it only for a missing role. The ARNs in the common `.policy.json` and the VPC access policy ARN are assumed to exist, so a mistyped ARN, which the provider rejects, succeeds in `Roles.AttachAllOutcome` and `Roles.AttachPolicyOutcome`.
- Which names the provider refuses (length, characters, bucket names owned by another account) is not spelled out: the account holds the set of refused names.
- The `.policy.json` object is a list of declarations. Every handler loop takes it to hold each key at most once, as the parsed JSON object does; duplicate keys in the file are not modelled.
- Statement ids: `SecureRandom.hex(16)` is not random in the model. Each id is the next value of a counter kept in the account, written as 32 hexadecimal digits.
- The account id that `sts.get_caller_identity` answers and the region are fields of the account, not separate calls.
- deploy/aws_adapter.rb is replaced by the account value. The command-line handling at the end of deploy/deploy.rb, the Python glue libraries and the `rest/` handlers are not part of this model.
- Concurrent runs against the same account are not modelled: the script does not defend against them.
- Deploy.SelectFeatures: the select runs from the last entry to the first. Ruby's order of evaluation is not observable here, because the filter has no effects.

## Where the code and its description differ

The model follows the code in each case:

- The code reads a queue's delay as `resource["sqs"][queue]["delay"]`, which raises for a queue that `.resource.json` does not list. There is no fall-back to a default.
- The script's timeout default of 3 applies only when `.lambda.json` is absent or empty. A non-empty configuration without a `timeout` key gives a nil timeout (`Settings.TimeoutNilExactly`), which the SDK leaves out of the request. A new function then still gets 3 seconds, the function service's own default (`Settings.CreatedTimeout`), but an existing function keeps whatever timeout it had rather than returning to 3 (`Settings.UpdatedTimeout`).
- create_function always gets the database record as its description. The name default on line 280 applies only to updates.
- The reset of the function's permissions before an S3 event-source grant happens whenever the `is_event_source` key is present, including when its value is false.
- get_policy raises for a function that has no resource-based policy yet, and a function that create_function has just made has none. A unit whose first resource key is S3 with an event-source bucket therefore fails on its first deployment (`Pipeline.DeployFunctionFirstEventSource`). Deploying it again fails the same way until something else has given the function a permission, such as a sibling unit's SNS link.
- The header comment of deploy/deploy.rb says that staging mode uses a role named `<project_folder_name>-staging-role`. The code uses the fixed role `adamas-staging-role` (`Project.StagingRole`).
- The header comment names `deploy/common_policy.json` as the file of common policies. The code reads `.policy.json` in the working directory.
- link_resource_sns adds another SNS invoke permission, with a fresh id, to each deployed linker function on every run. The permissions of a linker therefore grow with each deployment of its senders (`Links.LinkTopicOutcome`).
- A bucket name that create_bucket refuses is rescued like an existing bucket. Its ARN still goes into the S3 statement, and an event-source permission for it is still granted (`Links.LinkDataStore`, `Links.LinkEventSource`).
