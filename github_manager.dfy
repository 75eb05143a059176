/**
 * The four batch operations of the repository manager: create an issue, open a
 * pull request, merge a pull request and delete a branch in every selected
 * repository, in order, one console line per outcome. The service is the
 * `Connection` parameter; console output is the returned sequence of lines.
 */
module GithubManager {
  import opened Wrappers
  import opened Text
  import opened Remote
  import opened Prompt

  // ---------------------------------------------------------------------------
  // Console lines

  /** The shape of every outcome line: `"{repo}: {text}."`. */
  function Line(repo: string, text: string): string {
    repo + ": " + text + "."
  }

  /** The text of an outcome line of `repo`, or None when `line` is not one. */
  function LineText(repo: string, line: string): Option<string> {
    var p := repo + ": ";
    if |line| > |p| && line[..|p|] == p && line[|line| - 1] == '.' then Some(line[|p|..|line| - 1])
    else None
  }

  /** An outcome line names its repository and carries its text unchanged. */
  lemma LineRoundTrip(repo: string, text: string)
    ensures LineText(repo, Line(repo, text)) == Some(text)
  {
    var p := repo + ": ";
    var line := Line(repo, text);
    assert line == p + text + ".";
    assert line[..|p|] == p;
    assert line[|p|..|line| - 1] == text;
  }

  // ---------------------------------------------------------------------------
  // Label parsing

  /**
   * The descriptor's comma-separated label string as a list: empty gives no
   * labels, otherwise one stripped label per comma-separated piece, in order,
   * empty pieces included.
   */
  function ParseLabels(labels: string): (r: seq<string>)
    ensures r == [] <==> labels == ""
    ensures labels != "" ==>
      |r| == |SplitOn(labels, ',')| && forall k :: 0 <= k < |r| ==> r[k] == Strip(SplitOn(labels, ',')[k])
  {
    if labels == "" then []
    else
      var pieces := SplitOn(labels, ',');
      seq(|pieces|, k requires 0 <= k < |pieces| => Strip(pieces[k]))
  }

  /**
   * What the parsed labels are: the pieces rejoin to the input, there is one
   * more label than there are commas, and no label holds a comma or starts or
   * ends with whitespace.
   */
  lemma ParseLabelsPieces(labels: string)
    requires labels != ""
    ensures Join(SplitOn(labels, ','), ",") == labels
    ensures |ParseLabels(labels)| == multiset(labels)[','] + 1
    ensures forall k :: 0 <= k < |ParseLabels(labels)| ==> CleanLabel(ParseLabels(labels)[k])
  {
    JoinSplitOn(labels, ',');
    SplitOnCount(labels, ',');
    var pieces := SplitOn(labels, ',');
    var r := ParseLabels(labels);
    forall k | 0 <= k < |r| ensures CleanLabel(r[k]) {
      StripIsInfix(pieces[k]);
      var i :| PaddedAt(pieces[k], r[k], i);
      assert ',' !in pieces[k];
      assert forall c :: c in r[k] ==> c in pieces[k];
    }
  }

  /** A label as parsing leaves it: no comma, no whitespace at either end. */
  predicate CleanLabel(l: string) {
    ',' !in l && (l == [] || (!IsSpace(l[0]) && !IsSpace(l[|l| - 1])))
  }

  /** The parsed labels as a set, as pull-request creation holds them. */
  function LabelSet(labels: string): set<string> {
    set l | l in ParseLabels(labels)
  }

  // ---------------------------------------------------------------------------
  // Issue creation

  const IssuesDisabled := "Issues are disabled for this repo"

  /** The outcome line of issue creation in `repo`. */
  function IssueLine(repo: string, reply: Reply): string {
    match reply
    case Done => Line(repo, "issue created successfully")
    case Failed(e) =>
      if e.message == IssuesDisabled then Line(repo, e.message + ". It may be a fork")
      else Line(repo, e.message)
  }

  /**
   * A failed issue creation reports the service's message verbatim, and adds
   * the fork hint exactly when the message says issues are disabled.
   */
  lemma IssueLineReportsMessage(repo: string, e: RemoteError)
    ensures LineText(repo, IssueLine(repo, Failed(e))) ==
      Some(if e.message == IssuesDisabled then e.message + ". It may be a fork" else e.message)
  {
    var t := if e.message == IssuesDisabled then e.message + ". It may be a fork" else e.message;
    LineRoundTrip(repo, t);
  }

  /** An issues-disabled failure is reported with the hint that the repository may be a fork. */
  lemma IssuesDisabledHint(repo: string, e: RemoteError)
    requires e.message == IssuesDisabled
    ensures IsSubstring("may be a fork", IssueLine(repo, Failed(e)))
  {
    var hint := "may be a fork";
    var front := repo + ": " + e.message + ". It ";
    var line := IssueLine(repo, Failed(e));
    assert line == front + hint + ".";
    assert line[|front|..|front| + |hint|] == hint;
    assert OccursAt(hint, line, |front|);
    IsSubstringAt(hint, line);
  }

  /** The `create_issue` request sent for one repository. */
  datatype IssueCall = IssueCall(repo: string, title: string, body: string, labels: seq<string>)

  /**
   * `create_issues`: one request and one outcome line per selected repository,
   * in order; a failure in one repository does not stop the others.
   */
  method CreateIssues(selectedRepos: seq<string>, issue: Issue, github: Connection)
    returns (lines: seq<string>, calls: seq<IssueCall>)
    ensures |lines| == |selectedRepos| && |calls| == |selectedRepos|
    ensures forall i :: 0 <= i < |selectedRepos| ==>
      calls[i] == IssueCall(selectedRepos[i], issue.title, issue.body, ParseLabels(issue.labels))
      && lines[i] == IssueLine(selectedRepos[i], github(selectedRepos[i]).issueReply)
  {
    var labels := ParseLabels(issue.labels);
    lines, calls := [], [];
    for i := 0 to |selectedRepos|
      invariant |lines| == i && |calls| == i
      invariant forall j :: 0 <= j < i ==>
        calls[j] == IssueCall(selectedRepos[j], issue.title, issue.body, labels)
        && lines[j] == IssueLine(selectedRepos[j], github(selectedRepos[j]).issueReply)
    {
      var name := selectedRepos[i];
      var repo := github(name);
      calls := calls + [IssueCall(name, issue.title, issue.body, labels)];
      match repo.issueReply
      case Done =>
        lines := lines + [Line(name, "issue created successfully")];
      case Failed(e) =>
        if e.message == IssuesDisabled {
          lines := lines + [Line(name, e.message + ". It may be a fork")];
        } else {
          lines := lines + [Line(name, e.message)];
        }
    }
  }

  // ---------------------------------------------------------------------------
  // Pull-request creation: linked issues

  /** The open issues whose title contains `link`, in listing order. */
  function Matching(issues: seq<OpenIssue>, link: string): seq<OpenIssue> {
    if issues == [] then []
    else
      var last := issues[|issues| - 1];
      Matching(issues[..|issues| - 1], link) + (if IsSubstring(link, last.title) then [last] else [])
  }

  /** An issue is matched exactly when it is listed and its title contains `link`. */
  lemma {:induction false} MatchingMembers(issues: seq<OpenIssue>, link: string, x: OpenIssue)
    ensures x in Matching(issues, link) <==> x in issues && IsSubstring(link, x.title)
  {
    if issues != [] {
      var front := issues[..|issues| - 1];
      MatchingMembers(front, link, x);
      assert issues == front + [issues[|issues| - 1]];
    }
  }

  /** Matching keeps the listing order: it distributes over concatenation. */
  lemma {:induction false} MatchingConcat(a: seq<OpenIssue>, b: seq<OpenIssue>, link: string)
    ensures Matching(a + b, link) == Matching(a, link) + Matching(b, link)
  {
    if b == [] {
      assert a + b == a;
    } else {
      var front := b[..|b| - 1];
      MatchingConcat(a, front, link);
      assert (a + b)[..|a + b| - 1] == a + front;
    }
  }

  /** The closing references `#N` of the given issues. */
  function Refs(ms: seq<OpenIssue>): (r: seq<string>)
    ensures |r| == |ms|
  {
    seq(|ms|, k requires 0 <= k < |ms| => "#" + NatToString(ms[k].number))
  }

  /** The text the loop builds before stripping: `"#N "` per matched issue. */
  function RawRefs(ms: seq<OpenIssue>): string {
    if ms == [] then ""
    else RawRefs(ms[..|ms| - 1]) + "#" + NatToString(ms[|ms| - 1].number) + " "
  }

  /** The references clause: the numbers of the matched issues, `#N #M`. */
  function ClosingRefs(issues: seq<OpenIssue>, link: string): string {
    Join(Refs(Matching(issues, link)), " ")
  }

  lemma {:induction false} RawRefsJoin(ms: seq<OpenIssue>)
    requires ms != []
    ensures var j := Join(Refs(ms), " ");
      RawRefs(ms) == j + " " && |j| > 0 && j[0] == '#' && IsDigit(j[|j| - 1])
  {
    var front := ms[..|ms| - 1];
    var digits := NatToString(ms[|ms| - 1].number);
    var tok := "#" + digits;
    var refs := Refs(ms);
    assert refs[|ms| - 1] == tok;
    assert RawRefs(ms) == RawRefs(front) + tok + " ";
    if front == [] {
      assert refs == [tok];
      assert Join(refs, " ") == tok;
    } else {
      RawRefsJoin(front);
      assert refs[..|ms| - 1] == Refs(front);
      var jf := Join(Refs(front), " ");
      assert Join(refs, " ") == jf + " " + tok;
      assert (jf + " " + tok)[0] == jf[0];
    }
  }

  /** Stripping the built text leaves the space-separated references. */
  lemma StripRawRefs(ms: seq<OpenIssue>)
    ensures Strip(RawRefs(ms)) == Join(Refs(ms), " ")
  {
    if ms != [] {
      RawRefsJoin(ms);
      var j := Join(Refs(ms), " ");
      var raw := j + " ";
      assert TrimLeft(raw) == raw;
      assert raw[..|raw| - 1] == j;
      StripUnpadded(j);
    }
  }

  /** The references clause is empty exactly when no open issue matches. */
  lemma ClosingRefsEmpty(issues: seq<OpenIssue>, link: string)
    ensures ClosingRefs(issues, link) == "" <==> Matching(issues, link) == []
  {
    if Matching(issues, link) != [] {
      RawRefsJoin(Matching(issues, link));
    }
  }

  /** The names of an issue's labels, as a set. */
  function LabelNames(issue: OpenIssue): set<string> {
    set l | l in issue.labels
  }

  /** Every label of every issue in `ms`. */
  function Inherited(ms: seq<OpenIssue>): set<string> {
    if ms == [] then {}
    else Inherited(ms[..|ms| - 1]) + LabelNames(ms[|ms| - 1])
  }

  lemma {:induction false} InheritedMembers(ms: seq<OpenIssue>, l: string)
    ensures l in Inherited(ms) <==> exists k :: 0 <= k < |ms| && l in ms[k].labels
  {
    if ms != [] {
      var front := ms[..|ms| - 1];
      InheritedMembers(front, l);
      if exists k :: 0 <= k < |ms| && l in ms[k].labels {
        var k :| 0 <= k < |ms| && l in ms[k].labels;
        if k < |front| {
          assert front[k] == ms[k];
        }
      }
      if exists k :: 0 <= k < |front| && l in front[k].labels {
        var k :| 0 <= k < |front| && l in front[k].labels;
        assert ms[k] == front[k];
      }
    }
  }

  /**
   * The inner loop of pull-request creation over the open issues: collects the
   * references of the issues whose title contains `link` and, when `inherit`
   * is set, adds their labels to `labels0`.
   */
  method LinkIssues(issues: seq<OpenIssue>, link: string, inherit: bool, labels0: set<string>)
    returns (closes: string, labels: set<string>)
    ensures closes == ClosingRefs(issues, link)
    ensures labels == labels0 + (if inherit then Inherited(Matching(issues, link)) else {})
  {
    var raw := "";
    labels := labels0;
    for k := 0 to |issues|
      invariant raw == RawRefs(Matching(issues[..k], link))
      invariant labels == labels0 + (if inherit then Inherited(Matching(issues[..k], link)) else {})
    {
      var issue := issues[k];
      ghost var ms := Matching(issues[..k], link);
      assert issues[..k + 1][..k] == issues[..k];
      assert Matching(issues[..k + 1], link) == ms + if IsSubstring(link, issue.title) then [issue] else [];
      if IsSubstring(link, issue.title) {
        var ms' := ms + [issue];
        assert ms'[..|ms'| - 1] == ms && ms'[|ms'| - 1] == issue;
        assert RawRefs(ms') == raw + "#" + NatToString(issue.number) + " ";
        assert Inherited(ms') == Inherited(ms) + LabelNames(issue);
        raw := raw + "#" + NatToString(issue.number) + " ";
        if inherit {
          labels := labels + LabelNames(issue);
        }
      } else {
        assert ms + [] == ms;
      }
    }
    assert issues[..|issues|] == issues;
    closes := Strip(raw);
    StripRawRefs(Matching(issues, link));
  }

  /** The body sent for one repository. */
  function PullBody(pr: PullRequest, issues: seq<OpenIssue>): string {
    if !pr.confirmation then pr.body
    else
      var refs := ClosingRefs(issues, pr.link);
      if refs == "" then pr.body else pr.body + "\n\nCloses " + refs
  }

  /**
   * The body gains `"\n\nCloses #N #M"` exactly when issue linking is on and at
   * least one open issue matches; otherwise it is the descriptor's body.
   */
  lemma PullBodyCloses(pr: PullRequest, issues: seq<OpenIssue>)
    ensures var ms := Matching(issues, pr.link);
      PullBody(pr, issues) ==
        if pr.confirmation && ms != [] then pr.body + "\n\nCloses " + Join(Refs(ms), " ") else pr.body
  {
    ClosingRefsEmpty(issues, pr.link);
  }

  /** The label set added to the pull request created in one repository. */
  function PullLabels(pr: PullRequest, issues: seq<OpenIssue>): set<string> {
    LabelSet(pr.labels)
    + if pr.confirmation && pr.inheritLabels then Inherited(Matching(issues, pr.link)) else {}
  }

  /**
   * A label is added exactly when it is one of the descriptor's parsed labels,
   * or label inheritance is on and it labels an open issue whose title
   * contains the link text.
   */
  lemma PullLabelsMembers(pr: PullRequest, issues: seq<OpenIssue>, l: string)
    ensures l in PullLabels(pr, issues) <==>
      l in ParseLabels(pr.labels)
      || (pr.confirmation && pr.inheritLabels
          && exists k :: 0 <= k < |issues| && IsSubstring(pr.link, issues[k].title) && l in issues[k].labels)
  {
    var ms := Matching(issues, pr.link);
    InheritedMembers(ms, l);
    if exists k :: 0 <= k < |ms| && l in ms[k].labels {
      var k :| 0 <= k < |ms| && l in ms[k].labels;
      MatchingMembers(issues, pr.link, ms[k]);
      var j :| 0 <= j < |issues| && issues[j] == ms[k];
      assert IsSubstring(pr.link, issues[j].title) && l in issues[j].labels;
    }
    if exists k :: 0 <= k < |issues| && IsSubstring(pr.link, issues[k].title) && l in issues[k].labels {
      var k :| 0 <= k < |issues| && IsSubstring(pr.link, issues[k].title) && l in issues[k].labels;
      MatchingMembers(issues, pr.link, issues[k]);
      var j :| 0 <= j < |ms| && ms[j] == issues[k];
    }
  }

  /** Of open issues titled "bug one", "ux" and "a bug", the link text `bug` matches the first and last. */
  lemma MatchingExample()
    ensures var issues := [OpenIssue(3, "bug one", []), OpenIssue(5, "ux", []), OpenIssue(7, "a bug", [])];
      Matching(issues, "bug") == [issues[0], issues[2]]
  {
    var issues := [OpenIssue(3, "bug one", []), OpenIssue(5, "ux", []), OpenIssue(7, "a bug", [])];
    assert IsSubstring("bug", "bug one");
    assert !IsSubstring("bug", "ux");
    assert IsSubstring("bug", "a bug") by {
      assert OccursAt("bug", "a bug", 2);
      IsSubstringAt("bug", "a bug");
    }
    assert issues[..1][..0] == [];
    assert Matching(issues[..1], "bug") == [issues[0]];
    assert issues[..2][..1] == issues[..1];
    assert Matching(issues[..2], "bug") == [issues[0]];
    assert issues[..3][..2] == issues[..2] && issues[..3] == issues;
  }

  /** With those issues open, the body sent ends with `Closes #3 #7`. */
  lemma ClosesExample(body: string)
    ensures var pr := PullRequest("t", body, "", true, "bug", false, "feature", "main", false);
      var issues := [OpenIssue(3, "bug one", []), OpenIssue(5, "ux", []), OpenIssue(7, "a bug", [])];
      PullBody(pr, issues) == body + "\n\nCloses #3 #7"
  {
    var issues := [OpenIssue(3, "bug one", []), OpenIssue(5, "ux", []), OpenIssue(7, "a bug", [])];
    MatchingExample();
    var refs := Refs([issues[0], issues[2]]);
    assert NatToString(3) == "3" && NatToString(7) == "7";
    assert refs[0] == "#3" && refs[1] == "#7";
    assert refs == ["#3", "#7"];
    assert refs[..1] == ["#3"];
    assert ClosingRefs(issues, "bug") == "#3 #7";
  }

  // ---------------------------------------------------------------------------
  // Pull-request creation: error text

  /** The text of one sub-error, or None when it has neither message nor field. */
  function Part(e: SubError): Option<string> {
    match e.message
    case Some(m) => Some(m + " ")
    case None =>
      match e.field
      case Some(f) => Some("Invalid field " + f + ". ")
      case None => None
  }

  /** The parts of all sub-errors, concatenated in order; None once one is missing. */
  function Details(errs: seq<SubError>): Option<string> {
    if errs == [] then Some("")
    else
      match Details(errs[..|errs| - 1])
      case None => None
      case Some(d) =>
        match Part(errs[|errs| - 1])
        case None => None
        case Some(p) => Some(d + p)
  }

  /** The sub-error text exists exactly when every sub-error has a message or a field. */
  lemma {:induction false} DetailsDefined(errs: seq<SubError>)
    ensures Details(errs).Some? <==> forall k :: 0 <= k < |errs| ==> Part(errs[k]).Some?
  {
    if errs != [] {
      var front := errs[..|errs| - 1];
      DetailsDefined(front);
      assert forall k :: 0 <= k < |front| ==> front[k] == errs[k];
    }
  }

  /** Read from the front: the first sub-error's part, then the rest's. */
  lemma {:induction false} DetailsCons(e: SubError, errs: seq<SubError>)
    ensures Details([e] + errs) ==
      if Part(e).Some? && Details(errs).Some? then Some(Part(e).value + Details(errs).value) else None
  {
    if errs == [] {
      assert [e] + errs == [e];
      assert [e][..0] == [];
      if Part(e).Some? {
        assert "" + Part(e).value == Part(e).value + "";
      }
    } else {
      var front := errs[..|errs| - 1];
      var last := errs[|errs| - 1];
      DetailsCons(e, front);
      assert ([e] + errs)[..|errs|] == [e] + front;
      assert ([e] + errs)[|errs|] == last;
      if Part(e).Some? && Details(front).Some? && Part(last).Some? {
        var p, d, q := Part(e).value, Details(front).value, Part(last).value;
        assert Details([e] + errs) == Some((p + d) + q);
        assert Details(errs) == Some(d + q);
        assert (p + d) + q == p + (d + q);
      }
    }
  }

  /** The sub-error text of a raised exception; None when `errors` is absent. */
  function ErrorDetail(e: RemoteError): Option<string> {
    if e.errors.None? then None else Details(e.errors.value)
  }

  /** The except branch's loop over `errors`, building the extra text. */
  method CollectErrorDetail(e: RemoteError) returns (extra: Option<string>)
    ensures extra == ErrorDetail(e)
  {
    if e.errors.None? {
      return None;
    }
    var errs := e.errors.value;
    var acc := "";
    for i := 0 to |errs|
      invariant Details(errs[..i]) == Some(acc)
    {
      var err := errs[i];
      assert errs[..i + 1][..i] == errs[..i];
      assert errs[..i + 1][i] == err;
      if err.message.Some? {
        assert acc + (err.message.value + " ") == acc + err.message.value + " ";
        acc := acc + err.message.value + " ";
      } else if err.field.Some? {
        assert acc + ("Invalid field " + err.field.value + ". ") == acc + "Invalid field " + err.field.value + ". ";
        acc := acc + "Invalid field " + err.field.value + ". ";
      } else {
        DetailsDefined(errs);
        return None;
      }
    }
    assert errs[..|errs|] == errs;
    return Some(acc);
  }

  /** The failure line of pull-request creation; None when building it raises. */
  function ErrorLine(repo: string, e: RemoteError): Option<string> {
    match ErrorDetail(e)
    case None => None
    case Some(extra) => Some(repo + ": " + e.message + ". " + extra)
  }

  // ---------------------------------------------------------------------------
  // Pull-request creation: the batch

  /** The `create_pull` request sent for one repository, and the label set added once creation succeeds. */
  datatype PullCall = PullCall(
    repo: string, title: string, body: string, head: string, base: string, draft: bool, labels: set<string>)

  function CallFor(repo: string, pr: PullRequest, r: Repo): PullCall {
    PullCall(repo, pr.title, PullBody(pr, r.openIssues), pr.head, pr.base, pr.draft, PullLabels(pr, r.openIssues))
  }

  /** The lines printed for one repository, and whether the batch stops there. */
  datatype Step = Step(lines: seq<string>, aborted: bool)

  function PullStep(repo: string, labels: set<string>, r: Repo): Step {
    match r.pullReply
    case Failed(e) =>
      (match ErrorLine(repo, e)
       case Some(l) => Step([l], false)
       case None => Step([], true))
    case Done =>
      var ok := Line(repo, "PR created successfully");
      if labels != {} && r.labelReply.Failed? then
        match ErrorLine(repo, r.labelReply.error)
        case Some(l) => Step([ok, l], false)
        case None => Step([ok], true)
      else Step([ok], false)
  }

  datatype PullLog = PullLog(lines: seq<string>, calls: seq<PullCall>, aborted: bool)

  /** The log after one more repository, unless the batch has already stopped. */
  function Advance(log: PullLog, name: string, pr: PullRequest, r: Repo): PullLog {
    if log.aborted then log
    else
      var call := CallFor(name, pr, r);
      var step := PullStep(name, call.labels, r);
      PullLog(log.lines + step.lines, log.calls + [call], step.aborted)
  }

  /** What `create_pull_requests` prints and sends for the given repositories. */
  function PullBatch(repos: seq<string>, pr: PullRequest, github: Connection): PullLog {
    if repos == [] then PullLog([], [], false)
    else
      var name := repos[|repos| - 1];
      Advance(PullBatch(repos[..|repos| - 1], pr, github), name, pr, github(name))
  }

  /** Once the batch has stopped, later repositories change nothing. */
  lemma {:induction false} PullBatchStops(repos: seq<string>, i: nat, pr: PullRequest, github: Connection)
    requires i <= |repos| && PullBatch(repos[..i], pr, github).aborted
    ensures PullBatch(repos, pr, github) == PullBatch(repos[..i], pr, github)
  {
    if i < |repos| {
      var front := repos[..|repos| - 1];
      assert front[..i] == repos[..i];
      PullBatchStops(front, i, pr, github);
    } else {
      assert repos[..i] == repos;
    }
  }

  /** No reply whose error text would raise while being built. */
  predicate WellFormedReplies(r: Repo) {
    (r.pullReply.Failed? ==> ErrorDetail(r.pullReply.error).Some?)
    && (r.labelReply.Failed? ==> ErrorDetail(r.labelReply.error).Some?)
  }

  /** One more repository adds its own request, unless the batch has stopped. */
  lemma AdvanceCalls(log: PullLog, name: string, pr: PullRequest, r: Repo)
    ensures Advance(log, name, pr, r).calls ==
      if log.aborted then log.calls else log.calls + [CallFor(name, pr, r)]
  {
  }

  /**
   * One request per repository reached, in order, each computed from that
   * repository's own open issues, so no body or label carries over.
   */
  lemma {:induction false} PullBatchCalls(repos: seq<string>, pr: PullRequest, github: Connection)
    ensures var log := PullBatch(repos, pr, github);
      && |log.calls| <= |repos|
      && forall i :: 0 <= i < |log.calls| ==> log.calls[i] == CallFor(repos[i], pr, github(repos[i]))
  {
    if repos != [] {
      var front := repos[..|repos| - 1];
      var name := repos[|repos| - 1];
      PullBatchCalls(front, pr, github);
      PullBatchComplete(front, pr, github);
      var flog := PullBatch(front, pr, github);
      var log := PullBatch(repos, pr, github);
      assert log == Advance(flog, name, pr, github(name));
      AdvanceCalls(flog, name, pr, github(name));
      forall i | 0 <= i < |log.calls|
        ensures log.calls[i] == CallFor(repos[i], pr, github(repos[i]))
      {
        if i < |flog.calls| {
          assert log.calls[i] == flog.calls[i];
          assert front[i] == repos[i];
        } else {
          assert i == |front| && repos[i] == name;
        }
      }
    }
  }


  /** A batch that did not stop reached every repository, each with one or two lines. */
  lemma {:induction false} PullBatchComplete(repos: seq<string>, pr: PullRequest, github: Connection)
    ensures var log := PullBatch(repos, pr, github);
      !log.aborted ==> |log.calls| == |repos| && |repos| <= |log.lines| <= 2 * |repos|
  {
    if repos != [] {
      var front := repos[..|repos| - 1];
      var name := repos[|repos| - 1];
      PullBatchComplete(front, pr, github);
      PullStepSize(name, CallFor(name, pr, github(name)).labels, github(name));
    }
  }

  /** One repository prints one or two lines, or none if its error text raises. */
  lemma PullStepSize(name: string, labels: set<string>, r: Repo)
    ensures var step := PullStep(name, labels, r);
      |step.lines| <= 2 && (!step.aborted ==> |step.lines| >= 1)
  {
  }

  lemma PullStepNeverStops(name: string, labels: set<string>, r: Repo)
    requires WellFormedReplies(r)
    ensures !PullStep(name, labels, r).aborted
  {
  }

  /** When every error reply is well formed, the batch never stops early. */
  lemma {:induction false} PullBatchNeverStops(repos: seq<string>, pr: PullRequest, github: Connection)
    requires forall i :: 0 <= i < |repos| ==> WellFormedReplies(github(repos[i]))
    ensures !PullBatch(repos, pr, github).aborted
  {
    if repos != [] {
      var front := repos[..|repos| - 1];
      var name := repos[|repos| - 1];
      assert forall i :: 0 <= i < |front| ==> front[i] == repos[i];
      PullBatchNeverStops(front, pr, github);
      assert WellFormedReplies(github(name));
      PullStepNeverStops(name, CallFor(name, pr, github(name)).labels, github(name));
    }
  }

  /**
   * `create_pull_requests`: for each selected repository in order, compute the
   * body and label set afresh, send the request, print its outcome and add the
   * labels; stops only when an error's text cannot be built.
   */
  method CreatePullRequests(selectedRepos: seq<string>, pr: PullRequest, github: Connection)
    returns (lines: seq<string>, calls: seq<PullCall>, aborted: bool)
    ensures PullLog(lines, calls, aborted) == PullBatch(selectedRepos, pr, github)
  {
    lines, calls, aborted := [], [], false;
    var i := 0;
    while i < |selectedRepos| && !aborted
      invariant 0 <= i <= |selectedRepos|
      invariant PullLog(lines, calls, aborted) == PullBatch(selectedRepos[..i], pr, github)
      decreases |selectedRepos| - i
    {
      var name := selectedRepos[i];
      assert selectedRepos[..i + 1][..i] == selectedRepos[..i];
      var call, step := CreatePullRequest(name, pr, github(name));
      lines, calls, aborted := lines + step.lines, calls + [call], step.aborted;
      i := i + 1;
    }
    if aborted {
      PullBatchStops(selectedRepos, i, pr, github);
    } else {
      assert selectedRepos[..i] == selectedRepos;
    }
  }

  /**
   * The body of the loop of `create_pull_requests` for one repository: the
   * request it sends and the lines it prints.
   */
  method CreatePullRequest(name: string, pr: PullRequest, repo: Repo) returns (call: PullCall, step: Step)
    ensures call == CallFor(name, pr, repo)
    ensures step == PullStep(name, call.labels, repo)
  {
    call := PreparePullRequest(name, pr, repo);
    step := ReportPullRequest(name, call.labels, repo);
  }

  /**
   * What the loop of `create_pull_requests` prints for one repository once the
   * request is sent with the label set `labels`.
   */
  method ReportPullRequest(name: string, labels: set<string>, repo: Repo) returns (step: Step)
    ensures step == PullStep(name, labels, repo)
  {
    var lines: seq<string> := [];
    var aborted := false;
    match repo.pullReply {
      case Done =>
        lines := lines + [Line(name, "PR created successfully")];
        if labels != {} && repo.labelReply.Failed? {
          var line := ReportPullError(name, repo.labelReply.error);
          if line.Some? {
            lines := lines + [line.value];
          } else {
            aborted := true;
          }
        }
      case Failed(e) =>
        var line := ReportPullError(name, e);
        if line.Some? {
          lines := lines + [line.value];
        } else {
          aborted := true;
        }
    }
    step := Step(lines, aborted);
  }

  /** The request the loop of `create_pull_requests` sends for one repository. */
  method PreparePullRequest(name: string, pr: PullRequest, repo: Repo) returns (call: PullCall)
    ensures call == CallFor(name, pr, repo)
  {
    var body := pr.body;
    var labels := LabelSet(pr.labels);
    if pr.confirmation {
      var closes;
      closes, labels := LinkIssues(repo.openIssues, pr.link, pr.inheritLabels, labels);
      if closes != "" {
        body := body + "\n\nCloses " + closes;
      }
    }
    call := PullCall(name, pr.title, body, pr.head, pr.base, pr.draft, labels);
  }

  /** The except branch of `create_pull_requests`: the failure line, None when it raises. */
  method ReportPullError(name: string, e: RemoteError) returns (line: Option<string>)
    ensures line == ErrorLine(name, e)
  {
    var extra := CollectErrorDetail(e);
    if extra.Some? {
      line := Some(name + ": " + e.message + ". " + extra.value);
    } else {
      line := None;
    }
  }

  // ---------------------------------------------------------------------------
  // Pull-request merge

  /** The head filter of the pull-request query: `"{prefix}:{head}"`. */
  function QualifiedHead(prefix: string, head: string): string {
    prefix + ":" + head
  }

  /** In a head filter whose owner has no `:`, the first `:` follows the owner. */
  lemma ColonAfterOwner(p: string, h: string)
    requires ':' !in p
    ensures QualifiedHead(p, h)[|p|] == ':'
    ensures forall k :: 0 <= k < |p| ==> QualifiedHead(p, h)[k] != ':'
  {
    forall k | 0 <= k < |p| ensures QualifiedHead(p, h)[k] != ':' {
      assert QualifiedHead(p, h)[k] == p[k];
    }
  }

  /** An owner without `:` and a branch are recovered from the head filter. */
  lemma QualifiedHeadInjective(p1: string, h1: string, p2: string, h2: string)
    requires ':' !in p1 && ':' !in p2
    requires QualifiedHead(p1, h1) == QualifiedHead(p2, h2)
    ensures p1 == p2 && h1 == h2
  {
    var q := QualifiedHead(p1, h1);
    ColonAfterOwner(p1, h1);
    ColonAfterOwner(p2, h2);
    assert |p1| == |p2|;
    assert p1 == q[..|p1|] && p2 == q[..|p2|];
    assert h1 == q[|p1| + 1..] && h2 == q[|p2| + 1..];
  }

  /** The open pull requests the query returns: exact base and head label, in order. */
  function PullsFor(pulls: seq<OpenPull>, base: string, head: string): seq<OpenPull> {
    if pulls == [] then []
    else
      var last := pulls[|pulls| - 1];
      PullsFor(pulls[..|pulls| - 1], base, head) + (if last.base == base && last.head == head then [last] else [])
  }

  lemma {:induction false} PullsForMembers(pulls: seq<OpenPull>, base: string, head: string, p: OpenPull)
    ensures p in PullsFor(pulls, base, head) <==> p in pulls && p.base == base && p.head == head
  {
    if pulls != [] {
      var front := pulls[..|pulls| - 1];
      PullsForMembers(front, base, head, p);
      assert pulls == front + [pulls[|pulls| - 1]];
    }
  }

  datatype MergeDecision = Merge(pull: OpenPull) | NotMergeable | NoOpenPull

  /**
   * Merge only a unique match that the service reports mergeable; a unique
   * match that is not (or not yet) mergeable is reported as such; zero or
   * several matches count as none.
   */
  function Decide(matches: seq<OpenPull>): (d: MergeDecision)
    ensures d.Merge? <==> |matches| == 1 && matches[0].mergeable == Some(true)
    ensures d.Merge? ==> d.pull == matches[0]
    ensures d.NotMergeable? <==> |matches| == 1 && matches[0].mergeable != Some(true)
    ensures d.NoOpenPull? <==> |matches| != 1
  {
    if |matches| == 1 then
      if matches[0].mergeable == Some(true) then Merge(matches[0]) else NotMergeable
    else NoOpenPull
  }

  /**
   * A merge is requested only for the one open pull request with the given
   * base and head label, and only when it is mergeable.
   */
  lemma MergeOnlyUnique(pulls: seq<OpenPull>, base: string, head: string)
    requires Decide(PullsFor(pulls, base, head)).Merge?
    ensures var p := Decide(PullsFor(pulls, base, head)).pull;
      && p in pulls && p.base == base && p.head == head && p.mergeable == Some(true)
      && forall k :: 0 <= k < |pulls| && pulls[k].base == base && pulls[k].head == head ==> pulls[k] == p
  {
    var ms := PullsFor(pulls, base, head);
    PullsForMembers(pulls, base, head, ms[0]);
    forall k | 0 <= k < |pulls| && pulls[k].base == base && pulls[k].head == head
      ensures pulls[k] == ms[0]
    {
      PullsForMembers(pulls, base, head, pulls[k]);
    }
  }

  /** The outcome line of a merge in `repo`. */
  function MergeLine(repo: string, m: PullRequestMerge, d: MergeDecision): string {
    match d
    case Merge(p) =>
      (match p.mergeReply
       case Done => Line(repo, "PR merged successfully")
       case Failed(e) => Line(repo, e.message))
    case NotMergeable => Line(repo, "PR not mergeable, GitHub checks may be running")
    case NoOpenPull => Line(repo, "no open PR found for " + m.base + ":" + m.head)
  }

  /** The decision for one repository. */
  function MergeDecisionFor(m: PullRequestMerge, r: Repo): MergeDecision {
    Decide(PullsFor(r.openPulls, m.base, QualifiedHead(m.prefix, m.head)))
  }

  /**
   * `merge_pull_requests`: one outcome line per selected repository, in order,
   * and a merge request exactly where the decision says so.
   */
  method MergePullRequests(selectedRepos: seq<string>, m: PullRequestMerge, github: Connection)
    returns (lines: seq<string>, merged: seq<bool>)
    ensures |lines| == |selectedRepos| && |merged| == |selectedRepos|
    ensures forall i :: 0 <= i < |selectedRepos| ==>
      var d := MergeDecisionFor(m, github(selectedRepos[i]));
      merged[i] == d.Merge? && lines[i] == MergeLine(selectedRepos[i], m, d)
  {
    var head := QualifiedHead(m.prefix, m.head);
    lines, merged := [], [];
    for i := 0 to |selectedRepos|
      invariant |lines| == i && |merged| == i
      invariant forall j :: 0 <= j < i ==>
        var d := MergeDecisionFor(m, github(selectedRepos[j]));
        merged[j] == d.Merge? && lines[j] == MergeLine(selectedRepos[j], m, d)
    {
      var name := selectedRepos[i];
      var repo := github(name);
      var pulls := PullsFor(repo.openPulls, m.base, head);
      if |pulls| == 1 {
        var pull := pulls[0];
        if pull.mergeable == Some(true) {
          merged := merged + [true];
          match pull.mergeReply
          case Done => lines := lines + [Line(name, "PR merged successfully")];
          case Failed(e) => lines := lines + [Line(name, e.message)];
        } else {
          merged := merged + [false];
          lines := lines + [Line(name, "PR not mergeable, GitHub checks may be running")];
        }
      } else {
        merged := merged + [false];
        lines := lines + [Line(name, "no open PR found for " + m.base + ":" + m.head)];
      }
    }
  }

  // ---------------------------------------------------------------------------
  // Branch deletion

  /** The reference looked up for a branch: `"heads/{branch}"`. */
  function RefName(branch: string): string {
    "heads/" + branch
  }

  /** Different branches are looked up under different references. */
  lemma RefNameInjective(a: string, b: string)
    requires RefName(a) == RefName(b)
    ensures a == b
  {
    assert a == RefName(a)[6..] && b == RefName(b)[6..];
  }

  /** The answer to looking up `ref` and deleting it. */
  function DeleteReply(r: Repo, ref: string): Reply {
    if ref in r.gitRefs then r.gitRefs[ref] else Failed(r.missingRef)
  }

  function DeleteLine(repo: string, reply: Reply): string {
    match reply
    case Done => Line(repo, "branch deleted successfully")
    case Failed(e) => Line(repo, e.message)
  }

  /**
   * `delete_branches`: one outcome line per selected repository, in order; a
   * failure is reported with the service's message and the batch goes on.
   */
  method DeleteBranches(selectedRepos: seq<string>, branch: string, github: Connection)
    returns (lines: seq<string>)
    ensures |lines| == |selectedRepos|
    ensures forall i :: 0 <= i < |selectedRepos| ==>
      lines[i] == DeleteLine(selectedRepos[i], DeleteReply(github(selectedRepos[i]), RefName(branch)))
  {
    lines := [];
    for i := 0 to |selectedRepos|
      invariant |lines| == i
      invariant forall j :: 0 <= j < i ==>
        lines[j] == DeleteLine(selectedRepos[j], DeleteReply(github(selectedRepos[j]), RefName(branch)))
    {
      var name := selectedRepos[i];
      var repo := github(name);
      var ref := RefName(branch);
      if ref in repo.gitRefs && repo.gitRefs[ref].Done? {
        lines := lines + [Line(name, "branch deleted successfully")];
      } else {
        var e := if ref in repo.gitRefs then repo.gitRefs[ref].error else repo.missingRef;
        lines := lines + [Line(name, e.message)];
      }
    }
  }

  /** A failed deletion reports the service's message verbatim. */
  lemma DeleteLineReportsMessage(repo: string, e: RemoteError)
    ensures LineText(repo, DeleteLine(repo, Failed(e))) == Some(e.message)
  {
    LineRoundTrip(repo, e.message);
  }
}
