/**
 * The hosting service as the batch runner sees it. Every remote call of the
 * runner is replaced by the answer it would get, so a repository handle is a
 * value holding those answers.
 */
module Remote {
  import opened Wrappers

  /** One entry of the `errors` list of a validation failure: `{message?, field?}`. */
  datatype SubError = SubError(message: Option<string>, field: Option<string>)

  /**
   * A raised remote exception's payload: its `message` and, when the service
   * sent one, its `errors` list.
   */
  datatype RemoteError = RemoteError(message: string, errors: Option<seq<SubError>>)

  /** The outcome of a remote call that returns nothing of interest. */
  datatype Reply = Done | Failed(error: RemoteError)

  /** An open issue as listed by the service, with the names of its labels. */
  datatype OpenIssue = OpenIssue(number: nat, title: string, labels: seq<string>)

  /**
   * An open pull request: its base branch, its head label `owner:branch`, the
   * service's `mergeable` flag (None while the service is still computing it)
   * and the answer a merge request on it would get.
   */
  datatype OpenPull = OpenPull(base: string, head: string, mergeable: Option<bool>, mergeReply: Reply)

  /**
   * A repository handle. `labelReply` is the answer to adding the pull
   * request's labels one by one: the first failing add, or Done.
   * `gitRefs` maps each existing reference to the answer its deletion gets;
   * looking up any other reference fails with `missingRef`.
   */
  datatype Repo = Repo(
    issueReply: Reply,
    openIssues: seq<OpenIssue>,
    pullReply: Reply,
    labelReply: Reply,
    openPulls: seq<OpenPull>,
    gitRefs: map<string, Reply>,
    missingRef: RemoteError)

  /** The connection: the handle `get_repo` returns for a full repository name. */
  type Connection = string -> Repo
}
