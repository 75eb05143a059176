/** The operation descriptors the prompts produce and the batch runner consumes. */
module Prompt {

  /** `labels` is one comma-separated string; empty means no labels. */
  datatype Issue = Issue(title: string, body: string, labels: string)

  datatype PullRequest = PullRequest(
    title: string,
    body: string,
    labels: string,
    confirmation: bool,
    link: string,
    inheritLabels: bool,
    head: string,
    base: string,
    draft: bool)

  datatype PullRequestMerge = PullRequestMerge(base: string, head: string, prefix: string, deleteBranch: bool)
}
