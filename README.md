# git-portfolio batch operations, modelled in Dafny

git-portfolio applies one operation to every repository a user has selected on
GitHub: create an issue, open a pull request, merge a pull request, or delete a
branch. `GithubManager` walks the selected repositories in order, makes the
remote calls for each one, and prints one outcome line per repository. A
remote error in one repository is caught and reported, and the batch goes on.

This project models those four batch operations (`create_issues`,
`create_pull_requests`, `merge_pull_requests`, `delete_branches` in
`src/git_portfolio/github_manager.py`) and proves what they print and send.

- `wrappers.dfy` (`Wrappers`): `Option`.
- `text.dfy` (`Text`): the Python string operations the source uses:
  `str.isspace`, `strip`, `split(",")`, `join`, the substring test `a in b`,
  and `"{}".format(n)` for issue numbers.
- `remote.dfy` (`Remote`): the service, as data. A `Repo` holds the answers
  that one repository's handle gives to each remote call. A `Connection` maps a
  full repository name to its `Repo`. A raised exception's payload is
  `RemoteError(message, errors)`. Its `errors` list holds sub-errors
  `{message?, field?}`.
- `prompt.dfy` (`Prompt`): the operation descriptors `Issue`, `PullRequest`
  and `PullRequestMerge`.
- `github_manager.dfy` (`GithubManager`): the four batches. Each batch loop,
  and the loops over open issues and over sub-errors, is a method with loop
  invariants, proved against a specification function. The
  console is the returned sequence of lines. The requests sent to the service
  are returned as well (`IssueCall`, `PullCall`, the `merged` flags).

Behaviour of `github_manager.py` worth noting:

- The label descriptor is one comma-separated string, split at every comma
  and stripped piece by piece. Empty pieces are kept: `"a,,b"` gives three
  labels, one of them empty.
- Pull-request labels are collected in a Python `set`. The order in which they
  are added to the pull request is not fixed, and is not modelled.
- Issue linking and label inheritance happen only when `confirmation` is set.
  Label inheritance also needs `inherit_labels`.
- A `GithubException` whose `errors` key is missing, or a sub-error with
  neither `message` nor `field`, makes the except branch of
  `create_pull_requests` raise `KeyError`. That ends the whole batch. The model
  keeps this: `CreatePullRequests` returns `aborted`, and `PullBatchNeverStops`
  proves the batch never stops early when every error is well formed.
- `mergeable` is `Option<bool>`. The service may not have computed it yet
  (`None`), and the source then treats it as false.

## Model

| member | source | states |
|---|---|---|
| `Text.TrimLeft` | src/git_portfolio/github_manager.py:35 | the result is the suffix of the input left after removing the longest prefix of Python whitespace |
| `Text.TrimRight` | src/git_portfolio/github_manager.py:79 | the result is the prefix of the input left after removing the longest suffix of Python whitespace |
| `Text.Strip` | src/git_portfolio/github_manager.py:35 | `str.strip()`: the result is no longer than the input and is empty or starts and ends with non-whitespace |
| `Text.StripIsInfix` | src/git_portfolio/github_manager.py:35 | the stripped string is an infix of the input with only whitespace before and after it |
| `Text.StripUnpadded` | src/git_portfolio/github_manager.py:79 | stripping a string with no whitespace at either end returns it unchanged |
| `Text.StripIdempotent` | src/git_portfolio/github_manager.py:35 | stripping twice is stripping once |
| `Text.SplitOn` | src/git_portfolio/github_manager.py:35 | `str.split(sep)` yields at least one piece, and no piece contains the separator |
| `Text.JoinSplitOn` | src/git_portfolio/github_manager.py:35 | rejoining the pieces with the separator gives back the input |
| `Text.SplitOnCount` | src/git_portfolio/github_manager.py:35 | there is one more piece than there are separators in the input |
| `Text.IsSpace` | src/git_portfolio/github_manager.py:35 | Python's `str.isspace()` for one code point: the ASCII controls 9-13 and 28-31, the space, and the Unicode spaces and separators `str.strip` removes |
| `Text.Join` | src/git_portfolio/github_manager.py:79 | Python's `sep.join(parts)`: the pieces in order with the separator between neighbours; the reference form of the stripped references |
| `Text.IsSubstring` | src/git_portfolio/github_manager.py:74 | Python's `sub in s`: `sub` is a prefix of `s` or of one of its suffixes |
| `Text.IsSubstringAt` | src/git_portfolio/github_manager.py:74 | `link in title` holds exactly when `link` occurs in `title` at some offset |
| `Text.NatToString` | src/git_portfolio/github_manager.py:75 | an issue number formats as a non-empty string of decimal digits with no leading zero |
| `Text.NatToStringRoundTrip` | src/git_portfolio/github_manager.py:75 | reading the formatted digits back gives the number |
| `Text.NatToStringInjective` | src/git_portfolio/github_manager.py:75 | different issue numbers give different `#N` references |
| `GithubManager.Line` | src/git_portfolio/github_manager.py:41 | the outcome line `"{repo}: {text}."` |
| `GithubManager.LineRoundTrip` | src/git_portfolio/github_manager.py:41 | each outcome line `"{repo}: {text}."` names its repository and carries its text unchanged |
| `GithubManager.ParseLabels` | src/git_portfolio/github_manager.py:34-36 | no labels exactly when the string is empty; otherwise one stripped label per comma-separated piece, in order |
| `GithubManager.ParseLabelsPieces` | src/git_portfolio/github_manager.py:34-36 | the pieces rejoin to the input; there are commas + 1 labels; no label has a comma or surrounding whitespace |
| `GithubManager.LabelSet` | src/git_portfolio/github_manager.py:64-68 | the descriptor's parsed labels as a set; empty for an empty descriptor |
| `GithubManager.IssueLine` | src/git_portfolio/github_manager.py:41-55 | the issue outcome line: "issue created successfully", the remote message with ". It may be a fork" for the issues-disabled message, or the remote message |
| `GithubManager.IssueLineReportsMessage` | src/git_portfolio/github_manager.py:42-55 | a failed issue creation reports the remote message verbatim, with `". It may be a fork"` added exactly for the issues-disabled message |
| `GithubManager.IssuesDisabledHint` | src/git_portfolio/github_manager.py:43-51 | an "Issues are disabled for this repo" failure gives a line containing "may be a fork" |
| `GithubManager.CreateIssues` | src/git_portfolio/github_manager.py:34-55 | exactly one request and one line per selected repo, in order; each request carries the title, body and parsed labels; each line depends only on that repo's reply (success, fork hint, or the message) |
| `GithubManager.Matching` | src/git_portfolio/github_manager.py:73-74 | the open issues whose title contains the link text, in listing order |
| `GithubManager.MatchingMembers` | src/git_portfolio/github_manager.py:73-74 | an open issue is matched exactly when it is listed and its title contains the link text |
| `GithubManager.MatchingConcat` | src/git_portfolio/github_manager.py:73-74 | matching distributes over concatenation of listings, so matched issues keep listing order |
| `GithubManager.Refs` | src/git_portfolio/github_manager.py:75 | one reference `#N` per given issue, in order, so as many references as issues |
| `GithubManager.RawRefs` | src/git_portfolio/github_manager.py:72-75 | the unstripped accumulation: `"#N "` appended per matched issue, starting from `""` |
| `GithubManager.ClosingRefs` | src/git_portfolio/github_manager.py:72-79 | the references clause: the matched issues' `#N` joined by single spaces |
| `GithubManager.RawRefsJoin` | src/git_portfolio/github_manager.py:72-75 | the loop's `"#N "` accumulation is the space-joined references plus one trailing space, starting with `#` and ending in a digit |
| `GithubManager.StripRawRefs` | src/git_portfolio/github_manager.py:79 | stripping the accumulation leaves exactly `"#N #M"` |
| `GithubManager.ClosingRefsEmpty` | src/git_portfolio/github_manager.py:79-81 | the references clause is empty exactly when no open issue matches |
| `GithubManager.LabelNames` | src/git_portfolio/github_manager.py:77 | the names of one issue's labels, as a set |
| `GithubManager.Inherited` | src/git_portfolio/github_manager.py:76-78 | the union of the label names of the given issues |
| `GithubManager.InheritedMembers` | src/git_portfolio/github_manager.py:76-78 | a label is inherited exactly when some matched issue carries it |
| `GithubManager.LinkIssues` | src/git_portfolio/github_manager.py:71-79 | the issue loop returns the joined references of the matched issues, and adds their labels to the set only when inheritance is on |
| `GithubManager.PullBody` | src/git_portfolio/github_manager.py:63-81 | the body sent: the descriptor's body, with `"\n\nCloses "` and the references appended when confirmation is set and the references are non-empty |
| `GithubManager.PullLabels` | src/git_portfolio/github_manager.py:64-78 | the label set: the parsed descriptor labels, plus the matched issues' labels when confirmation and inheritance are both set |
| `GithubManager.PullBodyCloses` | src/git_portfolio/github_manager.py:63-81 | the body gets `"\n\nCloses #N #M"` exactly when confirmation is set and some open issue matches; otherwise it is the descriptor's body |
| `GithubManager.MatchingExample` | src/git_portfolio/github_manager.py:73-74 | of titles "bug one", "ux", "a bug", the link text "bug" matches the first and last |
| `GithubManager.ClosesExample` | src/git_portfolio/github_manager.py:70-81 | with matching open issues 3 and 7, the body ends with `Closes #3 #7` |
| `GithubManager.PullLabelsMembers` | src/git_portfolio/github_manager.py:64-78 | a PR label is a parsed descriptor label, or (with confirmation and inheritance) a label of an open issue whose title contains the link text, and nothing else |
| `GithubManager.Part` | src/git_portfolio/github_manager.py:97-100 | one sub-error's text: `"{message} "` when it has a message, else `"Invalid field {field}. "`, else none (where the source raises `KeyError`) |
| `GithubManager.Details` | src/git_portfolio/github_manager.py:95-100 | the parts of all sub-errors concatenated in order, starting from `""`; none once a part is missing |
| `GithubManager.ErrorDetail` | src/git_portfolio/github_manager.py:95-100 | the sub-error text of an exception; none when its `errors` key is absent |
| `GithubManager.DetailsDefined` | src/git_portfolio/github_manager.py:96-100 | the sub-error text exists exactly when every sub-error has a message or a field |
| `GithubManager.DetailsCons` | src/git_portfolio/github_manager.py:96-100 | the text is the first sub-error's part (`"{message} "` or `"Invalid field {field}. "`) followed by the rest's, in order |
| `GithubManager.CollectErrorDetail` | src/git_portfolio/github_manager.py:95-100 | the loop over `errors` builds the concatenated sub-error text, or stops where the source raises `KeyError` |
| `GithubManager.ErrorLine` | src/git_portfolio/github_manager.py:95-105 | the pull-request failure line `"{repo}: {message}. {extra}"`; none when building `extra` raises |
| `GithubManager.ReportPullError` | src/git_portfolio/github_manager.py:94-105 | the failure line is `"{repo}: {message}. "` followed by the sub-error text |
| `GithubManager.CallFor` | src/git_portfolio/github_manager.py:63-89 | the request for one repository: the descriptor's title, head, base and draft flag, with the body and label set computed from that repository's open issues |
| `GithubManager.PullStep` | src/git_portfolio/github_manager.py:90-105 | one repository's printed lines and whether the batch stops: success line, then a label failure line when the set is non-empty and an add failed; or the creation failure line; a stop where the error text raises |
| `GithubManager.Advance` | src/git_portfolio/github_manager.py:61-105 | one loop iteration: nothing once the batch has stopped; otherwise that repository's request and lines appended to the log |
| `GithubManager.PullBatch` | src/git_portfolio/github_manager.py:61-105 | the whole batch: `Advance` over the selected repositories in order, from an empty log |
| `GithubManager.PreparePullRequest` | src/git_portfolio/github_manager.py:62-89 | the request for one repo: body and label set are computed afresh from that repo's open issues |
| `GithubManager.CreatePullRequest` | src/git_portfolio/github_manager.py:62-105 | one repo's request and lines: success line, then a label-add failure line if labels were added and one failed; or the creation failure line |
| `GithubManager.ReportPullRequest` | src/git_portfolio/github_manager.py:90-105 | after the request is sent: the success line, then a failure line only if the label set is non-empty and adding a label failed; or the creation failure line; stopping where the error text raises |
| `GithubManager.PullStepSize` | src/git_portfolio/github_manager.py:82-105 | one repo prints at most two lines, and at least one unless its error text raises |
| `GithubManager.PullStepNeverStops` | src/git_portfolio/github_manager.py:94-105 | with well-formed error replies, one repo never stops the batch |
| `GithubManager.PullBatchStops` | src/git_portfolio/github_manager.py:94-105 | once the batch has stopped, later repos add no lines and no requests |
| `GithubManager.PullBatchCalls` | src/git_portfolio/github_manager.py:61-89 | the i-th request is the one computed for the i-th selected repo from its own issues, so labels and body never carry over |
| `GithubManager.PullBatchComplete` | src/git_portfolio/github_manager.py:61-105 | a batch that did not stop sent one request per repo and printed between one and two lines per repo |
| `GithubManager.PullBatchNeverStops` | src/git_portfolio/github_manager.py:61-105 | when every error reply is well formed, the batch reaches every repo |
| `GithubManager.CreatePullRequests` | src/git_portfolio/github_manager.py:57-105 | the loop's lines, requests and stop flag equal the batch specification `PullBatch` |
| `GithubManager.QualifiedHead` | src/git_portfolio/github_manager.py:118 | the head filter `"{prefix}:{head}"` |
| `GithubManager.ColonAfterOwner` | src/git_portfolio/github_manager.py:118 | in `"{prefix}:{head}"` with a colon-free owner, the first colon follows the owner |
| `GithubManager.QualifiedHeadInjective` | src/git_portfolio/github_manager.py:118 | a colon-free owner and the branch are recovered from the head filter |
| `GithubManager.PullsFor` | src/git_portfolio/github_manager.py:123 | the open pull requests with the given base and head label, in listing order |
| `GithubManager.PullsForMembers` | src/git_portfolio/github_manager.py:123 | the query returns exactly the open PRs with that base and head label |
| `GithubManager.Decide` | src/git_portfolio/github_manager.py:124-147 | merge exactly when there is one match and it is mergeable; "not mergeable" exactly when there is one match that is not; "none found" exactly when there are zero or several matches |
| `GithubManager.MergeOnlyUnique` | src/git_portfolio/github_manager.py:123-128 | a merge is requested only for the one open PR with the given base and qualified head, and only if it is mergeable |
| `GithubManager.MergeDecisionFor` | src/git_portfolio/github_manager.py:123-128 | one repository's decision: `Decide` on the open pull requests for the base and the qualified head |
| `GithubManager.MergeLine` | src/git_portfolio/github_manager.py:124-147 | the merge outcome line: "PR merged successfully" or the merge error's message; "PR not mergeable, GitHub checks may be running"; or "no open PR found for {base}:{head}" with the unprefixed head |
| `GithubManager.MergePullRequests` | src/git_portfolio/github_manager.py:118-147 | one line per selected repo, in order; a merge is requested exactly where the decision says; the lines read merged, the merge error, "PR not mergeable, GitHub checks may be running", or "no open PR found for {base}:{head}" with the unprefixed head |
| `GithubManager.RefNameInjective` | src/git_portfolio/github_manager.py:156 | different branches are looked up under different `"heads/{branch}"` references |
| `GithubManager.RefName` | src/git_portfolio/github_manager.py:156 | the reference looked up for a branch: `"heads/{branch}"` |
| `GithubManager.DeleteReply` | src/git_portfolio/github_manager.py:155-157 | the answer to looking the reference up and deleting it; the repository's not-found error when the reference does not exist |
| `GithubManager.DeleteLine` | src/git_portfolio/github_manager.py:158-160 | the deletion outcome line: "branch deleted successfully" or the remote message |
| `GithubManager.DeleteBranches` | src/git_portfolio/github_manager.py:153-160 | one line per selected repo, in order; each is "branch deleted successfully" or the reply's message for `heads/{branch}` in that repo |
| `GithubManager.DeleteLineReportsMessage` | src/git_portfolio/github_manager.py:159-160 | a failed deletion reports the remote message verbatim |

## Left out

- Remote calls (`get_repo`, `create_issue`, `create_pull`, `get_issues`, `get_labels`, `get_pulls`, `merge`, `get_git_ref`, `delete`, `add_to_labels`): these belong to the GitHub client library. Their answers are inputs (`Remote.Repo`), fixed per repository name.
- A repository name selected twice is answered the same way on both visits, because the answers are fixed per name. The service would answer the second visit from its changed state: a second deletion of the same branch would fail with a not-found message, a second pull request for the same head would be refused. How the selection is built (`prompt.py`) is not part of this model.
- `get_repo` (lines 38, 62, 122, 154), `get_issues` (line 71), the paged iteration over the open issues (line 73), `issue.get_labels()` (line 77) and `get_pulls` with `totalCount` (lines 123-124) sit outside the per-repository `try`. Their failures would end the batch, but they are not modelled: every selected name resolves and every listing and label read succeeds.
- `data["message"]` is taken to exist in every exception. The `KeyError` for a missing message is not modelled.
- The label-add loop (lines 92-93) iterates over an unordered set, one remote call per label. The model collapses it into one reply, `labelReply`: the first failing add, or success. Which labels were added before a failure is not modelled.
- At line 83, `pr` is rebound to the created remote pull request, so later iterations read that object's attributes. The model keeps the descriptor fixed across iterations, as the loop evidently intends.
- Setup and connection (`__init__`, `get_github_connection`, `get_github_username`, `get_github_repos`, `select_github_repos`, `github_setup`, `init_config`, lines 22-29 and 162-224). These cover authentication, network errors and `sys.exit`, interactive re-prompting, and saving the configuration. They are I/O.
- Interactive prompts, entered when no descriptor is passed (lines 32-33, 58-59, 111-114, 150-151). Prompting is I/O, so the descriptors are parameters here.
- Logging setup (lines 15-19) and `print`. These are I/O; output is the returned sequence of lines.
- `PullRequestMerge.deleteBranch` is carried but unused, as in the source. No branch is deleted after a merge.
- Whitespace and splitting: `str.strip` is modelled with Python's whitespace set, over code points. `str.split` is modelled for a one-character separator only, which is the only use.
- `tests/test_prompt.py` (lines 53-58 and 71-81) builds `Issue` and `PullRequest` with `labels` as a list, `["tests"]`. `github_manager.py` (lines 35 and 65) calls `.split(",")` on that field, which only a string has. The model follows `github_manager.py`: `labels` is a string.
- `tests/test_prompt.py` and `tests/domain/test_gh_connection_settings.py` test only the prompt wiring and a settings constructor. `ConnectionSettings` is not part of this model.
