/** The command engine shared by both event processors
    (internal/services/event_processor.go and its earlier variant under
    webhook-demo/): event routing, slash-command extraction, command dispatch,
    the reply target, the project context handed to the AI backend, and the
    /continue, /fix and /help handlers, which the two variants share. */
module Commands {
  import opened Text
  import opened Models
  import opened Effects

  /** A slash command found in an Issue body or a comment. */
  datatype Command = Command(name: Bytes, args: Bytes)

  /** What a command runs against; absent pointers are None. */
  datatype CommandContext = CommandContext(
    repository: Repository,
    issue: Option<Issue>,
    pullRequest: Option<PullRequest>,
    comment: Option<Comment>,
    user: User)

  // ---------------------------------------------------------------------
  // Event routing

  const IssuesType: Bytes := Ascii("issues")
  const IssueCommentType: Bytes := Ascii("issue_comment")
  const PullRequestType: Bytes := Ascii("pull_request")
  const ReviewCommentType: Bytes := Ascii("pull_request_review_comment")
  const PingType: Bytes := Ascii("ping")
  const Opened: Bytes := Ascii("opened")
  const Created: Bytes := Ascii("created")

  /** The two JSON decodings the routers use: into a typed event, and (for ping)
      into a generic map, which succeeds on any JSON object and on `null`
      (json.Unmarshal leaves the map nil then). */
  datatype Json = Json(decode: Decoder, isObject: Bytes -> bool)

  /** Where an event goes: nowhere, an error, or a text to search for a command. */
  datatype Dispatch = Ignore | Reject(failure: Failure) | Inspect(text: Bytes, context: CommandContext)

  /** ProcessEvent's switch on the event type and the handle*Event switches on
      the action. Only opened Issues and created comments are searched for a
      command; every other action is only logged. */
  function Route(event: GitHubEvent, json: Json): (d: Dispatch)
    ensures event.eventType !in {IssuesType, IssueCommentType, PullRequestType, ReviewCommentType, PingType} ==> d == Ignore
    ensures event.eventType in {PullRequestType, PingType} ==> !d.Inspect?
    ensures d.Inspect? <==>
      json.decode(event.payload).Some? &&
      ((event.eventType == IssuesType && json.decode(event.payload).value.action == Opened) ||
       (event.eventType in {IssueCommentType, ReviewCommentType} && json.decode(event.payload).value.action == Created))
    ensures d.Reject? ==> d.failure == DecodeFailed(event.eventType)
  {
    var t := event.eventType;
    if t == IssuesType then
      match json.decode(event.payload)
      case None => Reject(DecodeFailed(t))
      case Some(p) =>
        if p.action == Opened
        then Inspect(p.issue.body, CommandContext(p.repository, Some(p.issue), None, None, p.sender))
        else Ignore
    else if t == IssueCommentType then
      match json.decode(event.payload)
      case None => Reject(DecodeFailed(t))
      case Some(p) =>
        if p.action == Created
        then Inspect(p.comment.body, CommandContext(p.repository, Some(p.issue), None, Some(p.comment), p.sender))
        else Ignore
    else if t == PullRequestType then
      match json.decode(event.payload)
      case None => Reject(DecodeFailed(t))
      case Some(_) => Ignore
    else if t == ReviewCommentType then
      match json.decode(event.payload)
      case None => Reject(DecodeFailed(t))
      case Some(p) =>
        if p.action == Created
        then Inspect(p.comment.body, CommandContext(p.repository, None, Some(p.pullRequest), Some(p.comment), p.sender))
        else Ignore
    else if t == PingType then
      if json.isObject(event.payload) then Ignore else Reject(DecodeFailed(t))
    else Ignore
  }

  /** A review comment on a pull request is searched with no Issue in its
      context; Issue events and Issue comments always carry their Issue. */
  lemma RouteContexts(event: GitHubEvent, json: Json)
    requires Route(event, json).Inspect?
    ensures var d := Route(event, json);
      (d.context.issue.None? <==> event.eventType == ReviewCommentType) &&
      (d.context.pullRequest.Some? <==> event.eventType == ReviewCommentType) &&
      (d.context.comment.None? <==> event.eventType == IssuesType) &&
      d.context.repository == json.decode(event.payload).value.repository &&
      d.text == (if event.eventType == IssuesType then json.decode(event.payload).value.issue.body
                 else json.decode(event.payload).value.comment.body)
  {
  }

  // ---------------------------------------------------------------------
  // The command regular expression ^/(code|continue|fix|help)\s*(.*)$

  const CodeName: Bytes := Ascii("code")
  const ContinueName: Bytes := Ascii("continue")
  const FixName: Bytes := Ascii("fix")
  const HelpName: Bytes := Ascii("help")
  const CommandNames: seq<Bytes> := [CodeName, ContinueName, FixName, HelpName]

  /** RE2's `\s`: tab, newline, form feed, carriage return and space (no vertical tab). */
  predicate IsRe2Space(b: byte)
  {
    b == 9 || b == 10 || b == 12 || b == 13 || b == 32
  }

  /** A greedy `\s*`: the rest after the longest run of RE2 white space. */
  function SkipRe2Space(s: Bytes): (r: Bytes)
    ensures |r| <= |s| && r == s[|s| - |r|..]
    ensures r == [] || !IsRe2Space(r[0])
  {
    if s != [] && IsRe2Space(s[0]) then SkipRe2Space(s[1..]) else s
  }

  /** What the greedy `\s*` skips is RE2 white space. */
  lemma {:induction false} SkipRe2Cut(s: Bytes)
    ensures forall i :: 0 <= i < |s| - |SkipRe2Space(s)| ==> IsRe2Space(s[i])
  {
    if s != [] && IsRe2Space(s[0]) {
      SkipRe2Cut(s[1..]);
      assert forall i :: 1 <= i < |s| ==> s[i] == s[1..][i - 1];
    }
  }

  /** The alternation `code|continue|fix|help`, tried in order at the start of s.
      No alternative is a prefix of another, so at most one can match. */
  function MatchName(s: Bytes): (r: Option<Bytes>)
    ensures r.Some? ==> r.value in CommandNames && HasPrefix(s, r.value)
    ensures r.None? <==> forall k :: 0 <= k < |CommandNames| ==> !HasPrefix(s, CommandNames[k])
  {
    if HasPrefix(s, CodeName) then Some(CodeName)
    else if HasPrefix(s, ContinueName) then Some(ContinueName)
    else if HasPrefix(s, FixName) then Some(FixName)
    else if HasPrefix(s, HelpName) then Some(HelpName)
    else None
  }

  /** FindStringSubmatch of the command expression on one line: groups 1 and 2,
      or None. `.` never matches a newline and `$` is the end of the text. */
  function MatchCommandLine(line: Bytes): Option<(Bytes, Bytes)>
  {
    if |line| == 0 || line[0] != Slash then None
    else match MatchName(line[1..])
      case None => None
      case Some(name) =>
        var rest := SkipRe2Space(line[1 + |name|..]);
        if Newline in rest then None else Some((name, rest))
  }

  /** One line as extractCommand reads it: trimmed, matched, argument trimmed. */
  function ParseLine(line: Bytes): Option<Command>
  {
    match MatchCommandLine(TrimSpace(line))
    case None => None
    case Some(groups) => Some(Command(groups.0, TrimSpace(groups.1)))
  }

  /** The lines extractCommand looks at. */
  function Lines(text: Bytes): seq<Bytes>
  {
    Split(TrimSpace(text), Newline)
  }

  /** Each command word is matched by its own alternative. */
  lemma MatchNameOf(name: Bytes, rest: Bytes)
    requires name in CommandNames
    ensures MatchName(name + rest) == Some(name)
  {
    var s := name + rest;
    assert s[..|name|] == name;
    if name == ContinueName {
      assert s[2] == ContinueName[2] != CodeName[2];
    } else if name == FixName {
      assert s[0] == FixName[0];
    } else if name == HelpName {
      assert s[0] == HelpName[0];
    }
  }

  /** A command word after a slash is recognised with whatever follows it, and
      the argument is that rest trimmed. */
  lemma CommandLineArgs(name: Bytes, rest: Bytes)
    requires name in CommandNames && Newline !in rest
    ensures MatchCommandLine([Slash] + name + rest) == Some((name, SkipRe2Space(rest)))
    ensures TrimSpace(SkipRe2Space(rest)) == TrimSpace(rest)
  {
    var line := [Slash] + name + rest;
    assert line[0] == Slash && line[1..] == name + rest;
    MatchNameOf(name, rest);
    assert line[1 + |name|..] == rest;
    var skipped := SkipRe2Space(rest);
    assert skipped == rest[|rest| - |skipped|..];
    assert Newline !in skipped;
    SkipThenTrim(rest);
  }

  /** Skipping RE2 white space first does not change what TrimSpace keeps. */
  lemma SkipThenTrim(rest: Bytes)
    ensures TrimSpace(SkipRe2Space(rest)) == TrimSpace(rest)
  {
    var skipped := |rest| - |SkipRe2Space(rest)|;
    assert SkipRe2Space(rest) == rest[skipped..];
    SkipRe2Cut(rest);
    TrimSpaceDropLeading(rest, skipped);
  }

  /** A line holding a slash, a command word and a trimmed argument is that
      command with that argument. Nothing has to separate the two, since the
      pattern has no word boundary: "/codex" is /code with argument "x". */
  lemma CommandOnLine(name: Bytes, args: Bytes)
    requires name in CommandNames && args != [] && Trimmed(args) && Newline !in args
    ensures ParseLine([Slash] + name + args) == Some(Command(name, args))
  {
    var line := [Slash] + name + args;
    assert line[0] == Slash && line[|line| - 1] == args[|args| - 1];
    TrimmedFixpoint(line);
    CommandLineArgs(name, args);
    TrimmedFixpoint(args);
  }

  /** The first line, in order, on which parse finds something. */
  function FirstMatch(parse: Bytes -> Option<Command>, lines: seq<Bytes>): Option<Command>
  {
    if lines == [] then None
    else if parse(lines[0]).Some? then parse(lines[0])
    else FirstMatch(parse, lines[1..])
  }

  /** The first line, in order, that the command expression matches. */
  function FirstCommand(lines: seq<Bytes>): Option<Command>
  {
    FirstMatch(ParseLine, lines)
  }

  /** Nothing is found exactly when parse finds nothing on any line. */
  lemma {:induction false} FirstMatchNone(parse: Bytes -> Option<Command>, lines: seq<Bytes>)
    ensures FirstMatch(parse, lines).None? <==> forall k :: 0 <= k < |lines| ==> parse(lines[k]).None?
  {
    if lines != [] {
      FirstMatchNone(parse, lines[1..]);
      assert forall k :: 0 < k < |lines| ==> lines[k] == lines[1..][k - 1];
    }
  }

  /** What is found comes from the first line parse accepts; every line
      before it yields nothing. */
  lemma {:induction false} FirstMatchFirst(parse: Bytes -> Option<Command>, lines: seq<Bytes>)
    requires FirstMatch(parse, lines).Some?
    ensures exists k :: 0 <= k < |lines| && FirstMatch(parse, lines) == parse(lines[k]) &&
                        forall j :: 0 <= j < k ==> parse(lines[j]).None?
  {
    if parse(lines[0]).None? {
      FirstMatchFirst(parse, lines[1..]);
      var k :| 0 <= k < |lines[1..]| && FirstMatch(parse, lines[1..]) == parse(lines[1..][k]) &&
               forall j :: 0 <= j < k ==> parse(lines[1..][j]).None?;
      assert FirstMatch(parse, lines) == parse(lines[k + 1]);
      forall j | 0 <= j < k + 1
        ensures parse(lines[j]).None?
      {
        if j > 0 {
          assert lines[j] == lines[1..][j - 1];
        }
      }
    }
  }

  /** No command is found exactly when no line matches. */
  lemma FirstCommandNone(lines: seq<Bytes>)
    ensures FirstCommand(lines).None? <==> forall k :: 0 <= k < |lines| ==> ParseLine(lines[k]).None?
  {
    FirstMatchNone(ParseLine, lines);
  }

  /** A found command is the one on the first matching line; every line before
      it matches nothing, and whatever later lines hold is ignored. */
  lemma FirstCommandFirst(lines: seq<Bytes>)
    requires FirstCommand(lines).Some?
    ensures exists k :: 0 <= k < |lines| && FirstCommand(lines) == ParseLine(lines[k]) &&
                        forall j :: 0 <= j < k ==> ParseLine(lines[j]).None?
  {
    FirstMatchFirst(ParseLine, lines);
  }

  /** A command followed by more command lines: only the first one counts. */
  lemma FirstCommandWins(line: Bytes, later: seq<Bytes>)
    requires ParseLine(line).Some?
    ensures FirstCommand([line] + later) == ParseLine(line)
  {
  }

  /** extractCommand: the first line, in order, that the command expression
      matches; later command lines are ignored. */
  method ExtractCommand(text: Bytes) returns (r: Option<Command>)
    ensures r == FirstCommand(Lines(text))
    ensures r.Some? ==> r.value.name in CommandNames && Trimmed(r.value.args)
  {
    var lines := Lines(text);
    r := ScanLines(ParseLine, lines);
    if r.Some? {
      var k :| 0 <= k < |lines| && ParseLine(lines[k]) == r;
      ParsedCommandShape(lines[k]);
    }
  }

  /** extractCommand's loop, with the per-line match passed in as parse: the
      lines are tried in order and the first match is returned at once. */
  method ScanLines(parse: Bytes -> Option<Command>, lines: seq<Bytes>) returns (r: Option<Command>)
    ensures r == FirstMatch(parse, lines)
    ensures r.Some? ==> exists k :: 0 <= k < |lines| && parse(lines[k]) == r
  {
    var i := 0;
    while i < |lines|
      invariant 0 <= i <= |lines|
      invariant FirstMatch(parse, lines) == FirstMatch(parse, lines[i..])
    {
      var command := parse(lines[i]);
      if command.Some? {
        return command;
      }
      assert lines[i..][1..] == lines[i + 1..];
      i := i + 1;
    }
    r := None;
  }

  /** A recognised command is one of the four and its argument is trimmed. */
  lemma ParsedCommandShape(line: Bytes)
    requires ParseLine(line).Some?
    ensures ParseLine(line).value.name in CommandNames && Trimmed(ParseLine(line).value.args)
  {
  }

  /** The handlers executeCommand switches to. */
  datatype Handler = CodeHandler | ContinueHandler | FixHandler | HelpHandler

  /** executeCommand's switch on the command word; None is the unknown-command error. */
  function HandlerFor(name: Bytes): (h: Option<Handler>)
    ensures h.Some? <==> name in CommandNames
  {
    if name == CodeName then Some(CodeHandler)
    else if name == ContinueName then Some(ContinueHandler)
    else if name == FixName then Some(FixHandler)
    else if name == HelpName then Some(HelpHandler)
    else None
  }

  // ---------------------------------------------------------------------
  // The reply target (createResponse)

  /** The Issue or pull request a reply is posted on. */
  datatype Target = Target(owner: Bytes, repo: Bytes, number: int)

  /** createResponse's choice: the full name must split on '/' into exactly
      two parts; the Issue wins over the pull request; with neither it fails. */
  function ReplyTarget(ctx: CommandContext): (r: Outcome<Target>)
    ensures r.Ok? <==> |Split(ctx.repository.fullName, Slash)| == 2 && (ctx.issue.Some? || ctx.pullRequest.Some?)
    ensures |Split(ctx.repository.fullName, Slash)| != 2 ==> r == Fail(InvalidRepositoryName(ctx.repository.fullName))
    ensures r.Fail? && |Split(ctx.repository.fullName, Slash)| == 2 ==> r == Fail(NoReplyTarget)
    ensures r.Ok? ==>
      r.value.owner + [Slash] + r.value.repo == ctx.repository.fullName &&
      Slash !in r.value.owner && Slash !in r.value.repo &&
      r.value.number == (if ctx.issue.Some? then ctx.issue.value.number else ctx.pullRequest.value.number)
  {
    var parts := Split(ctx.repository.fullName, Slash);
    JoinSplit(ctx.repository.fullName, Slash);
    SplitPieces(ctx.repository.fullName, Slash);
    assert |parts| == 2 ==> Join(parts, Slash) == parts[0] + [Slash] + parts[1];
    if |parts| != 2 then Fail(InvalidRepositoryName(ctx.repository.fullName))
    else if ctx.issue.Some? then Ok(Target(parts[0], parts[1], ctx.issue.value.number))
    else if ctx.pullRequest.Some? then Ok(Target(parts[0], parts[1], ctx.pullRequest.value.number))
    else Fail(NoReplyTarget)
  }

  /** A full name "owner/repo" with a slash-free owner and name is answered on
      exactly that owner and repository. */
  lemma ReplyTargetOwnerRepo(ctx: CommandContext, owner: Bytes, repo: Bytes)
    requires Slash !in owner && Slash !in repo
    requires ctx.repository.fullName == owner + [Slash] + repo
    requires ctx.issue.Some? || ctx.pullRequest.Some?
    ensures ReplyTarget(ctx).Ok?
    ensures ReplyTarget(ctx).value.owner == owner && ReplyTarget(ctx).value.repo == repo
  {
    var parts := [owner, repo];
    assert Join(parts, Slash) == owner + [Slash] + repo;
    SplitJoin(parts, Slash);
  }

  /** The comment createResponse posts, if it gets that far. */
  function ReplyCalls(ctx: CommandContext, reply: Reply): seq<Call>
  {
    match ReplyTarget(ctx)
    case Fail(_) => []
    case Ok(t) => [PostComment(t.owner, t.repo, t.number, reply)]
  }

  /** createResponse's error: the target error, or CreateComment's. */
  function ReplyResult(world: World, log: seq<Call>, ctx: CommandContext, reply: Reply): Option<Failure>
  {
    match ReplyTarget(ctx)
    case Fail(f) => Some(f)
    case Ok(t) => AnswerError(world(log, PostComment(t.owner, t.repo, t.number, reply)))
  }

  /** The errors createResponse can return: a bad repository name, no target,
      or GitHub's error. */
  predicate ReplyFailure(f: Failure)
  {
    f.InvalidRepositoryName? || f.NoReplyTarget? || f.Remote?
  }

  /** Replying fails only in the ways createResponse does. */
  lemma ReplyResultFailure(world: World, log: seq<Call>, ctx: CommandContext, reply: Reply)
    ensures ReplyResult(world, log, ctx, reply).Some? ==> ReplyFailure(ReplyResult(world, log, ctx, reply).value)
  {
  }

  /** createResponse: posts the reply on the chosen Issue or pull request, or
      fails without calling GitHub. */
  method CreateResponse(ctx: CommandContext, reply: Reply, world: World, log0: seq<Call>)
    returns (err: Option<Failure>, log: seq<Call>)
    ensures log == log0 + ReplyCalls(ctx, reply)
    ensures err == ReplyResult(world, log0, ctx, reply)
    ensures ReplyTarget(ctx).Ok? ==> log == log0 + [PostComment(ReplyTarget(ctx).value.owner, ReplyTarget(ctx).value.repo, ReplyTarget(ctx).value.number, reply)]
    ensures ReplyTarget(ctx).Fail? ==> log == log0 && err == Some(ReplyTarget(ctx).failure)
    ensures Ordered(log0) && Top(log0) <= 12 ==> Ordered(log) && Top(log) <= 12
  {
    var target := ReplyTarget(ctx);
    if target.Fail? {
      return Some(target.failure), log0;
    }
    var answer;
    answer, log := Perform(world, log0, PostComment(target.value.owner, target.value.repo, target.value.number, reply));
    err := AnswerError(answer);
  }

  // ---------------------------------------------------------------------
  // The project context (buildProjectContext)

  const RepositoryHeading: Bytes := [0x2A, 0x2A, 0xE4, 0xBB, 0x93, 0xE5, 0xBA, 0x93, 0xE4, 0xBF, 0xA1, 0xE6, 0x81, 0xAF, 0x3A, 0x2A, 0x2A]  // **仓库信息:**
  const FullNameLabel: Bytes := [0x2D, 0x20, 0xE4, 0xBB, 0x93, 0xE5, 0xBA, 0x93, 0x3A, 0x20]  // - 仓库:
  const NameLabel: Bytes := [0x2D, 0x20, 0xE5, 0x90, 0x8D, 0xE7, 0xA7, 0xB0, 0x3A, 0x20]  // - 名称:
  const UrlLabel: Bytes := [0x2D, 0x20, 0x55, 0x52, 0x4C, 0x3A, 0x20]  // - URL:
  const IssueHeading: Bytes := [0x2A, 0x2A, 0x49, 0x73, 0x73, 0x75, 0x65, 0xE4, 0xBF, 0xA1, 0xE6, 0x81, 0xAF, 0x3A, 0x2A, 0x2A]  // **Issue信息:**
  const TitleLabel: Bytes := [0x2D, 0x20, 0xE6, 0xA0, 0x87, 0xE9, 0xA2, 0x98, 0x3A, 0x20]  // - 标题:
  const DescriptionLabel: Bytes := [0x2D, 0x20, 0xE6, 0x8F, 0x8F, 0xE8, 0xBF, 0xB0, 0x3A, 0x20]  // - 描述:
  const StateLabel: Bytes := [0x2D, 0x20, 0xE7, 0x8A, 0xB6, 0xE6, 0x80, 0x81, 0x3A, 0x20]  // - 状态:
  const LabelsLabel: Bytes := [0x2D, 0x20, 0xE6, 0xA0, 0x87, 0xE7, 0xAD, 0xBE, 0x3A, 0x20]  // - 标签:
  const PullRequestHeading: Bytes := [0x2A, 0x2A, 0x50, 0x75, 0x6C, 0x6C, 0x20, 0x52, 0x65, 0x71, 0x75, 0x65, 0x73, 0x74, 0xE4, 0xBF, 0xA1, 0xE6, 0x81, 0xAF, 0x3A, 0x2A, 0x2A]  // **Pull Request信息:**
  const BranchLabel: Bytes := [0x2D, 0x20, 0xE5, 0x88, 0x86, 0xE6, 0x94, 0xAF, 0x3A, 0x20]  // - 分支:
  const Arrow: Bytes := [0x20, 0x2D, 0x3E, 0x20]  // " -> "
  const UserHeading: Bytes := [0x2A, 0x2A, 0xE7, 0x94, 0xA8, 0xE6, 0x88, 0xB7, 0xE4, 0xBF, 0xA1, 0xE6, 0x81, 0xAF, 0x3A, 0x2A, 0x2A]  // **用户信息:**
  const UserLabel: Bytes := [0x2D, 0x20, 0xE7, 0x94, 0xA8, 0xE6, 0x88, 0xB7, 0x3A, 0x20]  // - 用户:
  const CommaSpace: Bytes := [0x2C, 0x20]  // ", "

  /** One "- caption: value" line. */
  function Field(caption: Bytes, value: Bytes): Bytes
  {
    caption + value + [Newline]
  }

  function RepositorySection(repo: Repository): Bytes
  {
    RepositoryHeading + [Newline] + Field(FullNameLabel, repo.fullName) +
    Field(NameLabel, repo.name) + Field(UrlLabel, repo.htmlUrl)
  }

  function LabelNames(labels: seq<Label>): seq<Bytes>
  {
    seq(|labels|, i requires 0 <= i < |labels| => labels[i].name)
  }

  function IssueSection(issue: Issue): Bytes
  {
    [Newline] + IssueHeading + [Newline] + Field(TitleLabel, issue.title) +
    Field(DescriptionLabel, issue.body) + Field(StateLabel, issue.state) +
    Field(LabelsLabel, JoinWith(LabelNames(issue.labels), CommaSpace))
  }

  function PullRequestSection(pr: PullRequest): Bytes
  {
    [Newline] + PullRequestHeading + [Newline] + Field(TitleLabel, pr.title) +
    Field(DescriptionLabel, pr.body) + Field(StateLabel, pr.state) +
    Field(BranchLabel, pr.head.ref + Arrow + pr.base.ref)
  }

  function UserSection(user: User): Bytes
  {
    [Newline] + UserHeading + [Newline] + Field(UserLabel, user.login)
  }

  /** The context text: repository, then the Issue part, then the pull request
      part, then the user; a part is empty exactly when its object is absent. */
  function ProjectContext(ctx: CommandContext): Bytes
  {
    RepositorySection(ctx.repository) +
    (if ctx.issue.Some? then IssueSection(ctx.issue.value) else []) +
    (if ctx.pullRequest.Some? then PullRequestSection(ctx.pullRequest.value) else []) +
    UserSection(ctx.user)
  }

  /** buildProjectContext, as the builder writes it: the repository part, the
      Issue part when there is an Issue, the pull request part when there is a
      pull request, and the user part. */
  method BuildProjectContext(ctx: CommandContext) returns (r: Bytes)
    ensures r == ProjectContext(ctx)
  {
    r := WriteRepository(ctx.repository);
    if ctx.issue.Some? {
      var part := WriteIssue(ctx.issue.value);
      r := r + part;
    }
    if ctx.pullRequest.Some? {
      var part := WritePullRequest(ctx.pullRequest.value);
      r := r + part;
    }
    var part := WriteUser(ctx.user);
    r := r + part;
  }

  method WriteRepository(repo: Repository) returns (r: Bytes)
    ensures r == RepositorySection(repo)
  {
    r := RepositoryHeading + [Newline];
    r := r + Field(FullNameLabel, repo.fullName);
    r := r + Field(NameLabel, repo.name);
    r := r + Field(UrlLabel, repo.htmlUrl);
  }

  method WriteIssue(issue: Issue) returns (r: Bytes)
    ensures r == IssueSection(issue)
  {
    r := [Newline] + IssueHeading + [Newline];
    r := r + Field(TitleLabel, issue.title);
    r := r + Field(DescriptionLabel, issue.body);
    r := r + Field(StateLabel, issue.state);
    var names: seq<Bytes> := [];
    for i := 0 to |issue.labels|
      invariant names == LabelNames(issue.labels[..i])
    {
      assert issue.labels[..i + 1] == issue.labels[..i] + [issue.labels[i]];
      names := names + [issue.labels[i].name];
    }
    assert issue.labels[..|issue.labels|] == issue.labels;
    r := r + Field(LabelsLabel, JoinWith(names, CommaSpace));
  }

  method WritePullRequest(pr: PullRequest) returns (r: Bytes)
    ensures r == PullRequestSection(pr)
  {
    r := [Newline] + PullRequestHeading + [Newline];
    r := r + Field(TitleLabel, pr.title);
    r := r + Field(DescriptionLabel, pr.body);
    r := r + Field(StateLabel, pr.state);
    r := r + Field(BranchLabel, pr.head.ref + Arrow + pr.base.ref);
  }

  method WriteUser(user: User) returns (r: Bytes)
    ensures r == UserSection(user)
  {
    r := [Newline] + UserHeading + [Newline];
    r := r + Field(UserLabel, user.login);
  }

  /** The context starts with the repository part, ends with the user part and
      holds the Issue part and the pull request part when those objects exist. */
  lemma ProjectContextSections(ctx: CommandContext)
    ensures HasPrefix(ProjectContext(ctx), RepositorySection(ctx.repository))
    ensures HasSuffix(ProjectContext(ctx), UserSection(ctx.user))
    ensures ctx.issue.Some? ==> Contains(ProjectContext(ctx), IssueSection(ctx.issue.value))
    ensures ctx.pullRequest.Some? ==> Contains(ProjectContext(ctx), PullRequestSection(ctx.pullRequest.value))
  {
    var issuePart := if ctx.issue.Some? then IssueSection(ctx.issue.value) else [];
    var prPart := if ctx.pullRequest.Some? then PullRequestSection(ctx.pullRequest.value) else [];
    ConcatParts(RepositorySection(ctx.repository), issuePart, prPart, UserSection(ctx.user));
  }

  /** Every label name of the Issue appears in the context. */
  lemma ProjectContextLabels(ctx: CommandContext, k: nat)
    requires ctx.issue.Some? && k < |ctx.issue.value.labels|
    ensures Contains(ProjectContext(ctx), ctx.issue.value.labels[k].name)
  {
    var issue := ctx.issue.value;
    var joined := JoinWith(LabelNames(issue.labels), CommaSpace);
    JoinWithContains(LabelNames(issue.labels), CommaSpace, k);
    var prefix := [Newline] + IssueHeading + [Newline] + Field(TitleLabel, issue.title) +
      Field(DescriptionLabel, issue.body) + Field(StateLabel, issue.state) + LabelsLabel;
    assert IssueSection(issue) == prefix + joined + [Newline];
    ContainsConcat(prefix, joined, [Newline]);
    assert LabelNames(issue.labels)[k] == issue.labels[k].name;
    ContainsTransitive(IssueSection(issue), joined, issue.labels[k].name);
    ProjectContextSections(ctx);
    ContainsTransitive(ProjectContext(ctx), IssueSection(issue), issue.labels[k].name);
  }

  // ---------------------------------------------------------------------
  // truncateString

  const Ellipsis: Bytes := Ascii("...")

  /** truncateString: s itself when it fits, else its first maxLen bytes and "...". */
  function TruncateString(s: Bytes, maxLen: nat): (r: Bytes)
    ensures |s| <= maxLen ==> r == s
    ensures |s| > maxLen ==> |r| == maxLen + 3 && r[..maxLen] == s[..maxLen] && r[maxLen..] == Ellipsis
  {
    if |s| <= maxLen then s else s[..maxLen] + Ellipsis
  }

  /** Only the first maxLen bytes of a long text show in its truncation. */
  lemma TruncateForgetsTail(s: Bytes, t: Bytes, maxLen: nat)
    requires |s| > maxLen && |t| > maxLen && s[..maxLen] == t[..maxLen]
    ensures TruncateString(s, maxLen) == TruncateString(t, maxLen)
  {
  }

  // ---------------------------------------------------------------------
  // The handlers both processors share

  /** The reply of /continue for the backend's answer. */
  function ContinueReply(instruction: Bytes, a: Answer): Reply
  {
    match a
    case Done(code) => Continued(instruction, code)
    case Refused(message) => ContinueFailedReply(message)
  }

  /** The reply of /fix for the backend's answer. */
  function FixReply(problem: Bytes, a: Answer): Reply
  {
    match a
    case Done(code) => Fixed(problem, code)
    case Refused(message) => FixFailedReply(message)
  }

  /** handleContinueCommand: asks the backend with the project context, then
      replies with the code or, on a backend error, with the error; it never
      returns the backend error itself. */
  method HandleContinue(cmd: Command, ctx: CommandContext, world: World) returns (err: Option<Failure>, log: seq<Call>)
    ensures var c := ContinueCode(cmd.args, ProjectContext(ctx));
      log == [c] + ReplyCalls(ctx, ContinueReply(cmd.args, world([], c))) &&
      err == ReplyResult(world, [c], ctx, ContinueReply(cmd.args, world([], c)))
  {
    var context := BuildProjectContext(ctx);
    var answer;
    answer, log := Perform(world, [], ContinueCode(cmd.args, context));
    assert log == [ContinueCode(cmd.args, context)];
    err, log := CreateResponse(ctx, ContinueReply(cmd.args, answer), world, log);
  }

  /** handleFixCommand: the same shape as /continue with the fix request. */
  method HandleFix(cmd: Command, ctx: CommandContext, world: World) returns (err: Option<Failure>, log: seq<Call>)
    ensures var c := FixCode(cmd.args, ProjectContext(ctx));
      log == [c] + ReplyCalls(ctx, FixReply(cmd.args, world([], c))) &&
      err == ReplyResult(world, [c], ctx, FixReply(cmd.args, world([], c)))
  {
    var context := BuildProjectContext(ctx);
    var answer;
    answer, log := Perform(world, [], FixCode(cmd.args, context));
    assert log == [FixCode(cmd.args, context)];
    err, log := CreateResponse(ctx, FixReply(cmd.args, answer), world, log);
  }

  /** handleHelpCommand: only the help reply. */
  method HandleHelp(ctx: CommandContext, world: World) returns (err: Option<Failure>, log: seq<Call>)
    ensures log == ReplyCalls(ctx, HelpText)
    ensures err == ReplyResult(world, [], ctx, HelpText)
  {
    err, log := CreateResponse(ctx, HelpText, world, []);
  }
}
