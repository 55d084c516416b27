/** The auto-fix event processor of internal/services/event_processor.go:
    ProcessEvent and executeCommand of this variant, handleCodeCommand, and the
    autoAnalyzeAndModify pipeline (clone, file tree, git configuration, AI
    analysis, branch, modification plan, commit and push, pull request, reply,
    clean-up) with the helpers it calls. Every collaborator call goes through
    Effects.Perform, so each method returns the calls it made. */
module EventProcessor {
  import opened Text
  import opened Models
  import opened Effects
  import opened Commands
  import Git

  const Main: Bytes := Ascii("main")
  const GitUserName: Bytes := Ascii("CodeAgent")
  const GitUserEmail: Bytes := Ascii("codeagent@example.com")
  const TreeUnavailable: Bytes := [0xE6, 0x97, 0xA0, 0xE6, 0xB3, 0x95, 0xE8, 0x8E, 0xB7, 0xE5, 0x8F, 0x96, 0xE6, 0x96, 0x87, 0xE4, 0xBB, 0xB6, 0xE6, 0xA0, 0x91]  // 无法获取文件树
  const BranchStem: Bytes := Ascii("auto-fix-issue-")
  const Dash: byte := 45

  // ---------------------------------------------------------------------
  // Branch names

  /** The branch name the reply shows: auto-fix-issue-<number>. */
  function IssueBranch(number: int): Bytes
  {
    BranchStem + Decimal(number)
  }

  /** The branch created and pushed: the label, '-' and the clock's timestamp. */
  function BranchName(number: int, timestamp: Bytes): (r: Bytes)
    ensures HasPrefix(r, IssueBranch(number)) && |r| > |IssueBranch(number)|
  {
    IssueBranch(number) + [Dash] + timestamp
  }

  /** Different Issues get different branch labels. */
  lemma IssueBranchInjective(a: int, b: int)
    requires IssueBranch(a) == IssueBranch(b)
    ensures a == b
  {
    assert Decimal(a) == IssueBranch(a)[|BranchStem|..];
    assert Decimal(b) == IssueBranch(b)[|BranchStem|..];
    DecimalInjective(a, b);
  }

  /** fmt's %d writes different numbers differently. */
  lemma DecimalInjective(a: int, b: int)
    requires Decimal(a) == Decimal(b)
    ensures a == b
  {
    assert a < 0 <==> Decimal(a)[0] == Dash;
    assert b < 0 <==> Decimal(b)[0] == Dash;
    if a >= 0 {
      assert Digits(a) == Digits(b);
      DigitsRoundTrip(a);
      DigitsRoundTrip(b);
    } else {
      assert Digits(-a) == Decimal(a)[1..] == Decimal(b)[1..] == Digits(-b);
      DigitsRoundTrip(-a);
      DigitsRoundTrip(-b);
    }
  }

  // ---------------------------------------------------------------------
  // The modification plan (parseModificationResult)

  /** One entry of the plan's "modifications" array. */
  datatype FileModification = FileModification(file: Bytes, action: Bytes, content: Bytes, description: Bytes)

  /** json.Unmarshal of a ModificationResult, keeping its modifications: an
      injected partial decoder. */
  type PlanDecoder = Bytes -> Option<seq<FileModification>>

  const OpenBrace: byte := 123
  const CloseBrace: byte := 125

  /** i is the first '{' of text, j its last '}', and j comes after i. */
  predicate JsonSpan(text: Bytes, i: int, j: int)
  {
    0 <= i < j < |text| && text[i] == OpenBrace && OpenBrace !in text[..i] &&
    text[j] == CloseBrace && CloseBrace !in text[j + 1..]
  }

  /** A text has at most one such span: the first '{' and the last '}'. */
  lemma JsonSpanUnique(text: Bytes)
    ensures forall i, j :: JsonSpan(text, i, j) ==>
      i == IndexByte(text, OpenBrace) && j == LastIndexByte(text, CloseBrace)
  {
    forall i, j | JsonSpan(text, i, j)
      ensures i == IndexByte(text, OpenBrace) && j == LastIndexByte(text, CloseBrace)
    {
      IndexByteAt(text, OpenBrace, i);
      LastIndexByteAt(text, CloseBrace, j);
    }
  }

  /** parseModificationResult: decodes the text from the first '{' to the last
      '}' inclusive; without such a span it fails before decoding. */
  function ParseModificationResult(text: Bytes, decode: PlanDecoder): Outcome<seq<FileModification>>
  {
    var start := IndexByte(text, OpenBrace);
    var end := LastIndexByte(text, CloseBrace);
    if start < 0 || end < 0 || end <= start then Fail(NoJsonSpan)
    else
      match decode(text[start..end + 1])
      case None => Fail(JsonInvalid)
      case Some(mods) => Ok(mods)
  }

  /** The plan is missing exactly when the text has no span from a first '{'
      to a later last '}', and otherwise it is what that span decodes to. */
  lemma ParseModificationResultSpan(text: Bytes, decode: PlanDecoder)
    ensures ParseModificationResult(text, decode) == Fail(NoJsonSpan) <==> forall i, j :: !JsonSpan(text, i, j)
    ensures forall i, j :: JsonSpan(text, i, j) ==>
      ParseModificationResult(text, decode) ==
        (if decode(text[i..j + 1]).Some? then Ok(decode(text[i..j + 1]).value) else Fail(JsonInvalid))
  {
    JsonSpanUnique(text);
    var start := IndexByte(text, OpenBrace);
    var end := LastIndexByte(text, CloseBrace);
    if !(start < 0 || end < 0 || end <= start) {
      assert JsonSpan(text, start, end);
    }
  }

  /** A plan between prose without braces is exactly what gets decoded. */
  lemma PlanInProse(before: Bytes, json: Bytes, after: Bytes, decode: PlanDecoder)
    requires |json| >= 2 && json[0] == OpenBrace && json[|json| - 1] == CloseBrace
    requires OpenBrace !in before && CloseBrace !in after
    ensures ParseModificationResult(before + json + after, decode) ==
      (if decode(json).Some? then Ok(decode(json).value) else Fail(JsonInvalid))
  {
    var text := before + json + after;
    var i, j := |before|, |before| + |json| - 1;
    assert text[..i] == before;
    assert text[j + 1..] == after;
    assert text[i..j + 1] == json;
    assert JsonSpan(text, i, j);
    ParseModificationResultSpan(text, decode);
  }

  // ---------------------------------------------------------------------
  // Applying the plan (applyFileModification, applyCodeModifications)

  const CreateAction: Bytes := Ascii("create")
  const ModifyAction: Bytes := Ascii("modify")
  const DeleteAction: Bytes := Ascii("delete")

  /** The call applyFileModification makes: create and modify write the whole
      content, delete deletes, any other action makes none. */
  function ModificationCall(path: Bytes, m: FileModification): (c: Option<Call>)
    ensures c.Some? <==> m.action in [CreateAction, ModifyAction, DeleteAction]
    ensures m.action in [CreateAction, ModifyAction] ==> c == Some(WriteFile(path, m.file, m.content))
    ensures m.action == DeleteAction ==> c == Some(DeleteFile(path, m.file))
  {
    assert DeleteAction[0] != CreateAction[0] && DeleteAction[0] != ModifyAction[0];
    if m.action == CreateAction || m.action == ModifyAction then Some(WriteFile(path, m.file, m.content))
    else if m.action == DeleteAction then Some(DeleteFile(path, m.file))
    else None
  }

  /** The calls of an optional call. */
  function CallsOf(c: Option<Call>): seq<Call>
  {
    if c.Some? then [c.value] else []
  }

  /** applyFileModification: an unsupported action fails without a call. */
  method ApplyFileModification(path: Bytes, m: FileModification, world: World, log0: seq<Call>)
    returns (err: Option<Failure>, log: seq<Call>)
    ensures log == log0 + CallsOf(ModificationCall(path, m))
    ensures ModificationCall(path, m).None? ==> err == Some(UnsupportedAction(m.action))
    ensures ModificationCall(path, m).Some? ==> err == AnswerError(world(log0, ModificationCall(path, m).value))
    ensures Ordered(log0) && Top(log0) <= 6 ==> Ordered(log) && Top(log) <= 6
  {
    if m.action == CreateAction || m.action == ModifyAction {
      var answer;
      answer, log := Perform(world, log0, WriteFile(path, m.file, m.content));
      err := AnswerError(answer);
    } else if m.action == DeleteAction {
      var answer;
      answer, log := Perform(world, log0, DeleteFile(path, m.file));
      err := AnswerError(answer);
    } else {
      err, log := Some(UnsupportedAction(m.action)), log0;
    }
  }

  /** The line reporting an applied modification: "- file: description". */
  function ChangeLine(m: FileModification): Bytes
  {
    [Dash, Space] + m.file + [Colon, Space] + m.description
  }

  /** The calls applying mods makes, in order, whatever the answers. */
  function ModificationCalls(path: Bytes, mods: seq<FileModification>): seq<Call>
  {
    if mods == [] then [] else CallsOf(ModificationCall(path, mods[0])) + ModificationCalls(path, mods[1..])
  }

  /** The lines applyCodeModifications collects when it applies mods after the
      calls in log: one per modification whose call succeeded. */
  function AppliedLines(path: Bytes, mods: seq<FileModification>, world: World, log: seq<Call>): seq<Bytes>
  {
    if mods == [] then []
    else match ModificationCall(path, mods[0])
      case None => AppliedLines(path, mods[1..], world, log)
      case Some(c) =>
        (if world(log, c).Done? then [ChangeLine(mods[0])] else []) + AppliedLines(path, mods[1..], world, log + [c])
  }

  /** Applying the first modification: its line, if its call succeeded, then
      the lines of the rest after its call. */
  lemma AppliedLinesStep(path: Bytes, mods: seq<FileModification>, world: World, log: seq<Call>)
    requires mods != []
    ensures var c := ModificationCall(path, mods[0]);
      AppliedLines(path, mods, world, log) ==
        (if c.Some? && world(log, c.value).Done? then [ChangeLine(mods[0])] else []) +
        AppliedLines(path, mods[1..], world, log + CallsOf(c))
  {
    if ModificationCall(path, mods[0]).None? {
      assert log + [] == log;
    }
  }

  /** The change lines of the supported modifications, in order. */
  function SupportedLines(path: Bytes, mods: seq<FileModification>): seq<Bytes>
  {
    if mods == [] then []
    else (if ModificationCall(path, mods[0]).Some? then [ChangeLine(mods[0])] else []) + SupportedLines(path, mods[1..])
  }

  /** Each applied line reports a supported modification of the plan, and there
      are no more lines than modifications. */
  lemma {:induction false} AppliedLinesFromPlan(path: Bytes, mods: seq<FileModification>, world: World, log: seq<Call>)
    ensures |AppliedLines(path, mods, world, log)| <= |mods|
    ensures forall l :: l in AppliedLines(path, mods, world, log) ==>
      exists k :: 0 <= k < |mods| && ModificationCall(path, mods[k]).Some? && l == ChangeLine(mods[k])
  {
    if mods != [] {
      var log' := log + CallsOf(ModificationCall(path, mods[0]));
      AppliedLinesStep(path, mods, world, log);
      AppliedLinesFromPlan(path, mods[1..], world, log');
      var rest := AppliedLines(path, mods[1..], world, log');
      forall l | l in rest
        ensures exists k :: 0 <= k < |mods| && ModificationCall(path, mods[k]).Some? && l == ChangeLine(mods[k])
      {
        var k :| 0 <= k < |mods[1..]| && ModificationCall(path, mods[1..][k]).Some? && l == ChangeLine(mods[1..][k]);
        assert mods[1..][k] == mods[k + 1];
      }
    }
  }

  /** When every write and delete succeeds, every supported modification is
      reported; when every one fails, none is. */
  lemma {:induction false} AppliedLinesByAnswers(path: Bytes, mods: seq<FileModification>, world: World, log: seq<Call>)
    ensures (forall l: seq<Call>, c: Call :: (c.WriteFile? || c.DeleteFile?) ==> world(l, c).Done?) ==>
      AppliedLines(path, mods, world, log) == SupportedLines(path, mods)
    ensures (forall l: seq<Call>, c: Call :: (c.WriteFile? || c.DeleteFile?) ==> world(l, c).Refused?) ==>
      AppliedLines(path, mods, world, log) == []
  {
    if mods != [] {
      AppliedLinesStep(path, mods, world, log);
      AppliedLinesByAnswers(path, mods[1..], world, log + CallsOf(ModificationCall(path, mods[0])));
    }
  }

  const SummaryHead: Bytes := [0xE6, 0x88, 0x90, 0xE5, 0x8A, 0x9F, 0xE5, 0xBA, 0x94, 0xE7, 0x94, 0xA8, 0x20]  // "成功应用 "
  const SummaryCount: Bytes := [0x20, 0xE4, 0xB8, 0xAA, 0xE6, 0x96, 0x87, 0xE4, 0xBB, 0xB6, 0xE4, 0xBF, 0xAE, 0xE6, 0x94, 0xB9, 0x3A, 0x0A]  // " 个文件修改:\n"

  /** The summary of the applied changes: their number and their lines. */
  function Summary(lines: seq<Bytes>): Bytes
  {
    SummaryHead + Decimal(|lines|) + SummaryCount + Join(lines, Newline)
  }

  /** The summary names the count and lists every applied change. */
  lemma SummaryListsChanges(lines: seq<Bytes>)
    ensures HasPrefix(Summary(lines), SummaryHead + Decimal(|lines|))
    ensures forall k :: 0 <= k < |lines| ==> Contains(Summary(lines), lines[k])
  {
    var j := Join(lines, Newline);
    JoinContainsAll(lines, Newline);
    ContainsConcat(SummaryHead + Decimal(|lines|) + SummaryCount, j, []);
    assert Summary(lines) == SummaryHead + Decimal(|lines|) + SummaryCount + j + [];
    ContainsEach(Summary(lines), j, lines);
  }

  /** The request for a modification plan. */
  function PlanRequest(issue: Issue, analysis: Bytes): Call
  {
    RequestPlan(issue.title, issue.body, issue.number, analysis)
  }

  /** The plan the backend's answer yields. */
  function Plan(a: Answer, decode: PlanDecoder): Outcome<seq<FileModification>>
  {
    match a
    case Refused(message) => Fail(PlanRequestFailed(message))
    case Done(text) =>
      match ParseModificationResult(text, decode)
      case Fail(f) => Fail(PlanParseFailed(f))
      case Ok(mods) => Ok(mods)
  }

  /** The loop of applyCodeModifications: applies each modification in order,
      skipping a failing one, and collects the lines of the applied ones. */
  method ApplyAll(path: Bytes, mods: seq<FileModification>, world: World, log0: seq<Call>)
    returns (applied: seq<Bytes>, log: seq<Call>)
    ensures applied == AppliedLines(path, mods, world, log0)
    ensures log == log0 + ModificationCalls(path, mods)
    ensures Ordered(log0) && Top(log0) <= 6 ==> Ordered(log) && Top(log) <= 6
  {
    applied, log := [], log0;
    var i := 0;
    while i < |mods|
      invariant 0 <= i <= |mods|
      invariant AppliedLines(path, mods, world, log0) == applied + AppliedLines(path, mods[i..], world, log)
      invariant log + ModificationCalls(path, mods[i..]) == log0 + ModificationCalls(path, mods)
      invariant Ordered(log0) && Top(log0) <= 6 ==> Ordered(log) && Top(log) <= 6
    {
      assert mods[i..][1..] == mods[i + 1..];
      ghost var before, done, c := log, applied, ModificationCall(path, mods[i]);
      ghost var line := if c.Some? && world(before, c.value).Done? then [ChangeLine(mods[i])] else [];
      AppliedLinesStep(path, mods[i..], world, log);
      assert ModificationCalls(path, mods[i..]) == CallsOf(c) + ModificationCalls(path, mods[i + 1..]);
      var err;
      err, log := ApplyFileModification(path, mods[i], world, log);
      assert log == before + CallsOf(c);
      ConcatAssoc(before, CallsOf(c), ModificationCalls(path, mods[i + 1..]));
      if err.None? {
        applied := applied + [ChangeLine(mods[i])];
      }
      assert applied == done + line;
      ConcatAssoc(done, line, AppliedLines(path, mods[i + 1..], world, log));
      i := i + 1;
    }
  }

  /** Concatenation regroups. */
  lemma ConcatAssoc<T>(a: seq<T>, b: seq<T>, c: seq<T>)
    ensures a + (b + c) == (a + b) + c
  {
  }

  /** applyCodeModifications: asks for a plan, applies it, and fails exactly
      when nothing was applied. */
  method ApplyCodeModifications(path: Bytes, issue: Issue, analysis: Bytes, decode: PlanDecoder, world: World, log0: seq<Call>)
    returns (r: Outcome<Bytes>, log: seq<Call>)
    ensures var c := PlanRequest(issue, analysis);
      var plan := Plan(world(log0, c), decode);
      (plan.Fail? ==> log == log0 + [c] && r == Fail(plan.failure)) &&
      (plan.Ok? ==>
        log == log0 + [c] + ModificationCalls(path, plan.value) &&
        var lines := AppliedLines(path, plan.value, world, log0 + [c]);
        r == if lines == [] then Fail(NothingApplied) else Ok(Summary(lines)))
    ensures |log| > |log0| && log[..|log0|] == log0 && log[|log0|] == PlanRequest(issue, analysis)
    ensures Ordered(log0) && Top(log0) <= 5 ==> Ordered(log) && Top(log) <= 6
  {
    var answer;
    answer, log := Perform(world, log0, PlanRequest(issue, analysis));
    if answer.Refused? {
      return Fail(PlanRequestFailed(answer.message)), log;
    }
    var parsed := ParseModificationResult(answer.text, decode);
    if parsed.Fail? {
      return Fail(PlanParseFailed(parsed.failure)), log;
    }
    var applied;
    applied, log := ApplyAll(path, parsed.value, world, log);
    if applied == [] {
      return Fail(NothingApplied), log;
    }
    r := Ok(Summary(applied));
  }

  // ---------------------------------------------------------------------
  // Commit, push and pull request (commitAndPushChanges, createPullRequest)

  const StageAll: Bytes := Ascii(".")
  const NoChanges: Bytes := [0xE6, 0xB2, 0xA1, 0xE6, 0x9C, 0x89, 0xE6, 0xA3, 0x80, 0xE6, 0xB5, 0x8B, 0xE5, 0x88, 0xB0, 0xE4, 0xBB, 0xA3, 0xE7, 0xA0, 0x81, 0xE4, 0xBF, 0xAE, 0xE6, 0x94, 0xB9]  // 没有检测到代码修改
  const PushedPrefix: Bytes := [0xE2, 0x9C, 0x85, 0x20, 0xE4, 0xBB, 0xA3, 0xE7, 0xA0, 0x81, 0xE4, 0xBF, 0xAE, 0xE6, 0x94, 0xB9, 0xE5, 0xB7, 0xB2, 0xE6, 0x88, 0x90, 0xE5, 0x8A, 0x9F, 0xE6, 0x8F, 0x90, 0xE4, 0xBA, 0xA4, 0xE5, 0xB9, 0xB6, 0xE6, 0x8E, 0xA8, 0xE9, 0x80, 0x81, 0xE5, 0x88, 0xB0, 0xE5, 0x88, 0x86, 0xE6, 0x94, 0xAF, 0x3A, 0x20]  // "✅ 代码修改已成功提交并推送到分支: "
  const AutoFixStem: Bytes := [0xF0, 0x9F, 0xA4, 0x96, 0x20, 0xE8, 0x87, 0xAA, 0xE5, 0x8A, 0xA8, 0xE4, 0xBF, 0xAE, 0xE5, 0xA4, 0x8D, 0x20, 0x49, 0x73, 0x73, 0x75, 0x65, 0x20, 0x23]  // "🤖 自动修复 Issue #"
  const CommitTrailer: Bytes := [Newline, Newline] + [0xE7, 0x94, 0xB1, 0x41, 0x49, 0xE5, 0x8A, 0xA9, 0xE6, 0x89, 0x8B, 0xE8, 0x87, 0xAA, 0xE5, 0x8A, 0xA8, 0xE7, 0x94, 0x9F, 0xE6, 0x88, 0x90, 0xE7, 0x9A, 0x84, 0xE4, 0xBB, 0xA3, 0xE7, 0xA0, 0x81, 0xE4, 0xBF, 0xAE, 0xE6, 0x94, 0xB9, 0x0A, 0x0A, 0x49, 0x73, 0x73, 0x75, 0x65, 0xE9, 0x93, 0xBE, 0xE6, 0x8E, 0xA5, 0x3A, 0x20]  // "\n\n由AI助手自动生成的代码修改\n\nIssue链接: "
  const PrExistsMarker: Bytes := [0x41, 0x20, 0x70, 0x75, 0x6C, 0x6C, 0x20, 0x72, 0x65, 0x71, 0x75, 0x65, 0x73, 0x74, 0x20, 0x61, 0x6C, 0x72, 0x65, 0x61, 0x64, 0x79, 0x20, 0x65, 0x78, 0x69, 0x73, 0x74, 0x73]  // "A pull request already exists"
  const PrExists: Bytes := [0xF0, 0x9F, 0x94, 0x97, 0x20, 0x50, 0x75, 0x6C, 0x6C, 0x20, 0x52, 0x65, 0x71, 0x75, 0x65, 0x73, 0x74, 0x20, 0xE5, 0xB7, 0xB2, 0xE5, 0xAD, 0x98, 0xE5, 0x9C, 0xA8]  // 🔗 Pull Request 已存在
  const PrCreatedPrefix: Bytes := [0xF0, 0x9F, 0x94, 0x97, 0x20, 0xE5, 0xB7, 0xB2, 0xE5, 0x88, 0x9B, 0xE5, 0xBB, 0xBA, 0x50, 0x75, 0x6C, 0x6C, 0x20, 0x52, 0x65, 0x71, 0x75, 0x65, 0x73, 0x74, 0x3A, 0x20]  // "🔗 已创建Pull Request: "

  /** The pull request title, which is also the commit's subject. */
  function PullRequestTitle(issue: Issue): Bytes
  {
    AutoFixStem + Decimal(issue.number) + [Colon, Space] + issue.title
  }

  /** The commit message built inline by commitAndPushChanges. */
  function CommitMessage(issue: Issue): Bytes
  {
    PullRequestTitle(issue) + CommitTrailer + issue.url
  }

  /** For a one-line Issue title the commit's first line is the pull request title. */
  lemma CommitSubjectIsTitle(issue: Issue)
    requires Newline !in issue.title
    ensures Split(CommitMessage(issue), Newline)[0] == PullRequestTitle(issue)
  {
    var t := PullRequestTitle(issue);
    var m := CommitMessage(issue);
    var d := Decimal(issue.number);
    assert Newline !in d by {
      forall k | 0 <= k < |d|
        ensures d[k] != Newline
      {
      }
    }
    assert Newline !in AutoFixStem;
    assert Newline !in t;
    var rest := CommitTrailer + issue.url;
    assert m == t + rest;
    assert m[..|t|] == t;
    assert rest[0] == CommitTrailer[0] == Newline;
    assert m[|t|] == rest[0];
    IndexByteAt(m, Newline, |t|);
  }

  /** The call that opens the pull request from branch into main. */
  function PullRequestCall(issue: Issue, repo: Repository, branch: Bytes): Call
  {
    OpenPullRequest(repo.owner.login, repo.name, PullRequestTitle(issue), issue.number, branch, Main)
  }

  /** createPullRequest's result for GitHub's answer: an already existing pull
      request counts as success. */
  function PullRequestOutcome(a: Answer): Outcome<Bytes>
  {
    match a
    case Done(url) => Ok(PrCreatedPrefix + url)
    case Refused(message) => if Contains(message, PrExistsMarker) then Ok(PrExists) else Fail(Remote(message))
  }

  /** Only an error that does not report an existing pull request fails it; a
      new pull request is announced with its address. */
  lemma PullRequestOutcomeCases(a: Answer)
    ensures PullRequestOutcome(a).Fail? <==> a.Refused? && !Contains(a.message, PrExistsMarker)
    ensures PullRequestOutcome(a).Fail? ==> PullRequestOutcome(a).failure == Remote(a.message)
    ensures a.Done? ==> PullRequestOutcome(a) == Ok(PrCreatedPrefix + a.text) && HasSuffix(PullRequestOutcome(a).value, a.text)
    ensures a.Refused? && Contains(a.message, PrExistsMarker) ==> PullRequestOutcome(a) == Ok(PrExists)
  {
  }

  /** createPullRequest: one call to GitHub. */
  method CreatePullRequest(issue: Issue, repo: Repository, branch: Bytes, world: World, log0: seq<Call>)
    returns (r: Outcome<Bytes>, log: seq<Call>)
    ensures log == log0 + [PullRequestCall(issue, repo, branch)]
    ensures r == PullRequestOutcome(world(log0, PullRequestCall(issue, repo, branch)))
    ensures Ordered(log0) && Top(log0) <= 11 ==> Ordered(log) && Top(log) == 11
  {
    var answer;
    answer, log := Perform(world, log0, PullRequestCall(issue, repo, branch));
    match answer
    case Done(url) => r := Ok(PrCreatedPrefix + url);
    case Refused(message) =>
      if Contains(message, PrExistsMarker) {
        r := Ok(PrExists);
      } else {
        r := Fail(Remote(message));
      }
  }

  /** The calls commitAndPushChanges can make, in order. */
  function CommitCalls(path: Bytes, issue: Issue, repo: Repository, branch: Bytes): seq<Call>
  {
    [StageFiles(path, [StageAll]), StagedNames(path), Commit(path, CommitMessage(issue)),
     Push(path, branch), PullRequestCall(issue, repo, branch)]
  }

  /** The line the pull request adds to the commit result; a failed pull
      request adds none. */
  function PullRequestLine(o: Outcome<Bytes>): Bytes
  {
    if o.Ok? && o.value != [] then [Newline] + o.value else []
  }

  /** What commitAndPushChanges returns and how many of its calls it makes. */
  datatype CommitStep = CommitStep(result: Outcome<Bytes>, calls: nat)

  /** commitAndPushChanges for the answers to staging, the status check, the
      commit, the push and the pull request: a failing git call stops it, a
      clean status stops it with "no changes", and the pull request's failure
      is only left out of the text. */
  function CommitRun(a0: Answer, a1: Answer, a2: Answer, a3: Answer, a4: Answer, branch: Bytes): CommitStep
  {
    if a0.Refused? then CommitStep(Fail(StageFailed(a0.message)), 1)
    else if a1.Refused? then CommitStep(Fail(StatusFailed(a1.message)), 2)
    else if !Git.HasChanges(a1.text) then CommitStep(Ok(NoChanges), 2)
    else if a2.Refused? then CommitStep(Fail(CommitRejected(a2.message)), 3)
    else if a3.Refused? then CommitStep(Fail(PushFailed(a3.message)), 4)
    else CommitStep(Ok(PushedPrefix + branch + PullRequestLine(PullRequestOutcome(a4))), 5)
  }

  /** Nothing is committed unless git reports changes, and the step succeeds
      exactly when it pushed or found nothing to commit. */
  lemma CommitRunFacts(a0: Answer, a1: Answer, a2: Answer, a3: Answer, a4: Answer, branch: Bytes)
    ensures var step := CommitRun(a0, a1, a2, a3, a4, branch);
      1 <= step.calls <= 5 &&
      (step.calls >= 3 ==> a0.Done? && a1.Done? && Git.HasChanges(a1.text)) &&
      (step.calls == 5 <==> a0.Done? && a1.Done? && Git.HasChanges(a1.text) && a2.Done? && a3.Done?) &&
      (step.result.Ok? <==> step.calls == 5 || (a0.Done? && a1.Done? && !Git.HasChanges(a1.text))) &&
      (step.result == Ok(NoChanges) <==> step.calls == 2 && a1.Done?) &&
      (step.calls == 5 ==> HasPrefix(step.result.value, PushedPrefix + branch))
  {
    assert |NoChanges| < |PushedPrefix|;
  }

  /** GitHub's answer to the pull request never changes whether the step
      succeeds or what it called. */
  lemma CommitRunIgnoresPullRequest(a0: Answer, a1: Answer, a2: Answer, a3: Answer, a4: Answer, b4: Answer, branch: Bytes)
    ensures CommitRun(a0, a1, a2, a3, a4, branch).result.Ok? == CommitRun(a0, a1, a2, a3, b4, branch).result.Ok?
    ensures CommitRun(a0, a1, a2, a3, a4, branch).calls == CommitRun(a0, a1, a2, a3, b4, branch).calls
  {
  }

  /** commitAndPushChanges: stage everything, stop with "no changes" when
      nothing is staged, else commit, push and open a pull request. */
  method CommitAndPush(path: Bytes, issue: Issue, repo: Repository, branch: Bytes, world: World, log0: seq<Call>)
    returns (r: Outcome<Bytes>, log: seq<Call>)
    ensures var cs := CommitCalls(path, issue, repo, branch);
      var step := CommitRun(world(log0, cs[0]), world(log0 + [cs[0]], cs[1]), world(log0 + [cs[0], cs[1]], cs[2]),
                            world(log0 + [cs[0], cs[1], cs[2]], cs[3]), world(log0 + [cs[0], cs[1], cs[2], cs[3]], cs[4]), branch);
      r == step.result && 1 <= step.calls <= 5 && log == log0 + cs[..step.calls]
    ensures |log| > |log0| && log[..|log0|] == log0 && log[|log0|] == StageFiles(path, [StageAll])
  {
    var cs := CommitCalls(path, issue, repo, branch);
    var a0, a1, a2, a3;
    a0, log := Perform(world, log0, cs[0]);
    assert log == log0 + [cs[0]] == log0 + cs[..1];
    if a0.Refused? {
      return Fail(StageFailed(a0.message)), log;
    }
    a1, log := Perform(world, log, cs[1]);
    assert log == log0 + [cs[0], cs[1]] == log0 + cs[..2];
    if a1.Refused? {
      return Fail(StatusFailed(a1.message)), log;
    }
    if !Git.HasChanges(a1.text) {
      return Ok(NoChanges), log;
    }
    a2, log := Perform(world, log, cs[2]);
    assert log == log0 + [cs[0], cs[1], cs[2]] == log0 + cs[..3];
    if a2.Refused? {
      return Fail(CommitRejected(a2.message)), log;
    }
    a3, log := Perform(world, log, cs[3]);
    assert log == log0 + [cs[0], cs[1], cs[2], cs[3]] == log0 + cs[..4];
    if a3.Refused? {
      return Fail(PushFailed(a3.message)), log;
    }
    var pr;
    pr, log := CreatePullRequest(issue, repo, branch, world, log);
    assert log == log0 + cs[..5];
    r := Ok(PushedPrefix + branch + PullRequestLine(pr));
  }

  /** The commit calls run in stage order, from staging to the pull request. */
  lemma {:induction false} CommitCallsOrdered(log0: seq<Call>, cs: seq<Call>, n: nat)
    requires |cs| == 5 && forall k :: 0 <= k < 5 ==> Stage(cs[k]) == 7 + k
    requires Ordered(log0) && Top(log0) <= 7 && 1 <= n <= 5
    ensures Ordered(log0 + cs[..n]) && Top(log0 + cs[..n]) == 6 + n
  {
    var l := log0 + cs[..n - 1];
    var c := cs[n - 1];
    if n > 1 {
      CommitCallsOrdered(log0, cs, n - 1);
      assert l[|l| - 1] == cs[n - 2];
    } else {
      assert l == log0;
    }
    assert Top(l) <= Stage(c);
    assert log0 + cs[..n] == l + [c];
    OrderedSnoc(l, c);
  }

  // ---------------------------------------------------------------------
  // The pipeline (autoAnalyzeAndModify)

  /** The file tree put into the analysis prompt. */
  function TreeText(a: Answer): Bytes
  {
    if a.Done? then a.text else TreeUnavailable
  }

  /** The calls before the analysis result is known: the file tree, the git
      identity (whose failure is ignored) and the analysis itself. */
  function AnalysisCalls(path: Bytes, issue: Issue, tree: Bytes): seq<Call>
  {
    [FileTree(path), ConfigureGit(path, GitUserName, GitUserEmail), Analyze(issue.title, issue.body, tree)]
  }

  /** Reads the tree, configures git and asks for the analysis. */
  method AnalyzeRepository(path: Bytes, issue: Issue, world: World, log0: seq<Call>)
    returns (analysis: Answer, log: seq<Call>)
    ensures var cs := AnalysisCalls(path, issue, TreeText(world(log0, FileTree(path))));
      log == log0 + cs && analysis == world(log0 + cs[..2], cs[2])
    ensures Ordered(log0) && Top(log0) <= 1 ==> Ordered(log) && Top(log) == 3
  {
    var answer;
    answer, log := Perform(world, log0, FileTree(path));
    var cs := AnalysisCalls(path, issue, TreeText(answer));
    answer, log := Perform(world, log, cs[1]);
    assert log == log0 + cs[..2];
    analysis, log := Perform(world, log, cs[2]);
  }

  /** Commits, pushes and opens the pull request for an applied plan, and
      turns the outcome into the reply. */
  method CommitAndReply(path: Bytes, issue: Issue, repo: Repository, branch: Bytes, summary: Bytes,
                        world: World, log0: seq<Call>)
    returns (reply: Reply, log: seq<Call>)
    ensures |log| > |log0| && log[..|log0|] == log0 && log[|log0|] == StageFiles(path, [StageAll])
    ensures reply.CommitFailedReply? || reply.AutoFixDone?
    ensures reply.AutoFixDone? ==>
      reply == AutoFixDone(issue.title, issue.number, IssueBranch(issue.number), summary, reply.commit)
    ensures Ordered(log0) && Top(log0) <= 7 ==> Ordered(log) && Top(log) <= 11
  {
    var commit;
    commit, log := CommitAndPush(path, issue, repo, branch, world, log0);
    if Ordered(log0) && Top(log0) <= 7 {
      CommitCallsOrdered(log0, CommitCalls(path, issue, repo, branch), |log| - |log0|);
    }
    if commit.Fail? {
      return CommitFailedReply(commit.failure), log;
    }
    reply := AutoFixDone(issue.title, issue.number, IssueBranch(issue.number), summary, commit.value);
  }

  /** The reply a finished modification and commit make. */
  predicate PipelineReply(reply: Reply, issue: Issue)
  {
    (reply.ModificationFailedReply? || reply.CommitFailedReply? || reply.AutoFixDone?) &&
    (reply.AutoFixDone? ==>
      reply.title == issue.title && reply.number == issue.number && reply.branchLabel == IssueBranch(issue.number))
  }

  /** Creates the branch, applies the plan and commits, pushes and opens the
      pull request; a failed modification stops before anything is staged. */
  method ModifyAndCommit(path: Bytes, issue: Issue, repo: Repository, branch: Bytes, analysis: Bytes,
                         decode: PlanDecoder, world: World, log0: seq<Call>)
    returns (reply: Reply, log: seq<Call>)
    ensures |log| > |log0| + 1 && log[..|log0|] == log0 && log[|log0|] == CreateBranch(path, branch)
    ensures log[|log0| + 1] == PlanRequest(issue, analysis)
    ensures PipelineReply(reply, issue)
    ensures Ordered(log0) && Top(log0) <= 4 ==> Ordered(log) && Top(log) <= 11
    ensures Ordered(log0) && Top(log0) <= 4 && reply.ModificationFailedReply? ==> Top(log) <= 6
  {
    var answer;
    answer, log := Perform(world, log0, CreateBranch(path, branch));
    ghost var branched := log;
    var modification;
    modification, log := ApplyCodeModifications(path, issue, analysis, decode, world, log);
    assert log[|log0|] == log[..|branched|][|log0|] == CreateBranch(path, branch);
    assert log[..|log0|] == log[..|branched|][..|log0|] == log0;
    if modification.Fail? {
      return ModificationFailedReply(modification.failure), log;
    }
    ghost var applied := log;
    reply, log := CommitAndReply(path, issue, repo, branch, modification.value, world, log);
    assert log[..|applied|] == applied;
    assert log[|log0|] == applied[|log0|] && log[|log0| + 1] == applied[|log0| + 1];
    assert log[..|log0|] == applied[..|log0|];
  }

  /** The steps between a successful clone and the reply: the reply to post
      and the calls made, all before the reply's stage. */
  method RunPipeline(path: Bytes, issue: Issue, repo: Repository, timestamp: Bytes, decode: PlanDecoder,
                     world: World, log0: seq<Call>)
    returns (reply: Reply, log: seq<Call>)
    ensures var cs := AnalysisCalls(path, issue, TreeText(world(log0, FileTree(path))));
      |log| >= |log0| + 3 && log[..|log0| + 3] == log0 + cs &&
      (!reply.AnalysisFailedReply? ==> |log| > |log0| + 3) &&
      (reply.AnalysisFailedReply? <==> world(log0 + cs[..2], cs[2]).Refused?) &&
      (reply.AnalysisFailedReply? ==> log == log0 + cs) &&
      (!reply.AnalysisFailedReply? ==> log[|log0| + 3] == CreateBranch(path, BranchName(issue.number, timestamp)))
    ensures reply.AnalysisFailedReply? || PipelineReply(reply, issue)
    ensures Ordered(log0) && Top(log0) <= 1 ==> Ordered(log) && Top(log) <= 11
    ensures Ordered(log0) && Top(log0) <= 1 && reply.ModificationFailedReply? ==> Top(log) <= 6
  {
    var analysis;
    analysis, log := AnalyzeRepository(path, issue, world, log0);
    if analysis.Refused? {
      return AnalysisFailedReply(analysis.message), log;
    }
    ghost var analyzed := log;
    reply, log := ModifyAndCommit(path, issue, repo, BranchName(issue.number, timestamp), analysis.text, decode, world, log);
    assert log[..|log0| + 3] == analyzed[..|log0| + 3];
  }

  /** The context every reply of the pipeline is posted with. */
  function IssueContext(repo: Repository, issue: Issue, sender: User): CommandContext
  {
    CommandContext(repo, Some(issue), None, None, sender)
  }

  /** The log holds exactly one reply, posted on the context's target, and err
      is what posting it returned; or the target is invalid, nothing is posted
      and err is that failure. */
  predicate RepliedOnce(world: World, log: seq<Call>, ctx: CommandContext, err: Option<Failure>)
  {
    match ReplyTarget(ctx)
    case Fail(f) => err == Some(f) && forall i :: 0 <= i < |log| ==> !log[i].PostComment?
    case Ok(t) =>
      exists k :: 0 <= k < |log| && log[k].PostComment? &&
        log[k].owner == t.owner && log[k].repo == t.repo && log[k].number == t.number &&
        err == AnswerError(world(log[..k], log[k])) &&
        forall i :: 0 <= i < |log| && i != k ==> !log[i].PostComment?
  }

  /** A reply after calls of earlier stages and before clean-up is the only one. */
  lemma ReplyIsOnly(world: World, pre: seq<Call>, ctx: CommandContext, reply: Reply, tail: seq<Call>)
    requires forall i :: 0 <= i < |pre| ==> Stage(pre[i]) <= 11
    requires forall i :: 0 <= i < |tail| ==> !tail[i].PostComment?
    ensures RepliedOnce(world, pre + ReplyCalls(ctx, reply) + tail, ctx, ReplyResult(world, pre, ctx, reply))
  {
    var log := pre + ReplyCalls(ctx, reply) + tail;
    var r := ReplyCalls(ctx, reply);
    forall i | 0 <= i < |pre|
      ensures !log[i].PostComment?
    {
      assert log[i] == pre[i];
    }
    forall i | |pre| + |r| <= i < |log|
      ensures !log[i].PostComment?
    {
      assert log[i] == tail[i - |pre| - |r|];
    }
    if ReplyTarget(ctx).Ok? {
      var k := |pre|;
      assert log[k] == r[0];
      assert log[..k] == pre;
    }
  }

  /** The deferred end of the pipeline: the reply, then the removal of the
      working copy, which comes last of all. */
  method ReplyAndClean(path: Bytes, ctx: CommandContext, reply: Reply, world: World, pre: seq<Call>)
    returns (err: Option<Failure>, log: seq<Call>)
    requires Ordered(pre) && Top(pre) <= 11
    ensures log == pre + ReplyCalls(ctx, reply) + [Cleanup(path)]
    ensures err == ReplyResult(world, pre, ctx, reply)
    ensures Ordered(log) && forall i :: 0 <= i < |log| - 1 ==> !log[i].Cleanup?
    ensures RepliedOnce(world, log, ctx, err)
  {
    forall i | 0 <= i < |pre|
      ensures Stage(pre[i]) <= 11
    {
      OrderedBelowTop(pre, i);
    }
    err, log := CreateResponse(ctx, reply, world, pre);
    var cleaned;
    cleaned, log := Perform(world, log, Cleanup(path));
    ReplyIsOnly(world, pre, ctx, reply, [Cleanup(path)]);
    CleanupOnlyLast(pre, ReplyCalls(ctx, reply), Cleanup(path));
  }

  /** Calls of the stages before clean-up, then replies, then one last call:
      only that last call can be a clean-up. */
  lemma CleanupOnlyLast(pre: seq<Call>, replies: seq<Call>, last: Call)
    requires forall i :: 0 <= i < |pre| ==> Stage(pre[i]) <= 11
    requires forall i :: 0 <= i < |replies| ==> replies[i].PostComment?
    ensures var log := pre + replies + [last];
      forall i :: 0 <= i < |log| - 1 ==> !log[i].Cleanup?
  {
    var log := pre + replies + [last];
    forall i | 0 <= i < |log| - 1
      ensures !log[i].Cleanup?
    {
      if i < |pre| {
        assert log[i] == pre[i];
      } else {
        assert log[i] == replies[i - |pre|];
      }
    }
  }

  /** The answer to a failed clone: the clone-failed reply, and nothing to clean up. */
  method ReportCloneFailure(clone: Call, ctx: CommandContext, message: Bytes, world: World)
    returns (err: Option<Failure>, log: seq<Call>)
    requires clone.Clone?
    ensures log == [clone] + ReplyCalls(ctx, CloneFailedReply(message))
    ensures err == ReplyResult(world, [clone], ctx, CloneFailedReply(message))
    ensures Ordered(log) && RepliedOnce(world, log, ctx, err)
  {
    err, log := CreateResponse(ctx, CloneFailedReply(message), world, [clone]);
    ReplyIsOnly(world, [clone], ctx, CloneFailedReply(message), []);
    assert log == [clone] + ReplyCalls(ctx, CloneFailedReply(message)) + [];
  }

  /** autoAnalyzeAndModify: clones main; a failed clone is only answered. After
      a successful clone every exit replies on the Issue once and then removes
      the working copy, the last call of all. */
  method AutoAnalyzeAndModify(issue: Issue, repo: Repository, sender: User, timestamp: Bytes,
                              decode: PlanDecoder, world: World)
    returns (err: Option<Failure>, log: seq<Call>)
    ensures Ordered(log)
    ensures |log| >= 1 && log[0] == Clone(repo.cloneUrl, Main)
    ensures var clone := world([], Clone(repo.cloneUrl, Main));
      clone.Refused? ==>
        log == [Clone(repo.cloneUrl, Main)] + ReplyCalls(IssueContext(repo, issue, sender), CloneFailedReply(clone.message)) &&
        err == ReplyResult(world, [Clone(repo.cloneUrl, Main)], IssueContext(repo, issue, sender), CloneFailedReply(clone.message))
    ensures var clone := world([], Clone(repo.cloneUrl, Main));
      clone.Done? ==>
        log[|log| - 1] == Cleanup(clone.text) && forall i :: 0 <= i < |log| - 1 ==> !log[i].Cleanup?
    ensures RepliedOnce(world, log, IssueContext(repo, issue, sender), err)
  {
    var ctx := IssueContext(repo, issue, sender);
    var cloneCall := Clone(repo.cloneUrl, Main);
    var answer;
    answer, log := Perform(world, [], cloneCall);
    assert log == [cloneCall];
    if answer.Refused? {
      err, log := ReportCloneFailure(cloneCall, ctx, answer.message, world);
      return;
    }
    var path := answer.text;
    var reply;
    reply, log := RunPipeline(path, issue, repo, timestamp, decode, world, log);
    assert log[0] == cloneCall;
    ghost var pre := log;
    err, log := ReplyAndClean(path, ctx, reply, world, log);
    assert log[0] == pre[0];
  }

  // ---------------------------------------------------------------------
  // The /code command and the routers

  const CodeTitlePrefix: Bytes := [0xE4, 0xBB, 0xA3, 0xE7, 0xA0, 0x81, 0xE4, 0xBF, 0xAE, 0xE6, 0x94, 0xB9, 0xE8, 0xAF, 0xB7, 0xE6, 0xB1, 0x82, 0x3A, 0x20]  // "代码修改请求: "
  const OriginalHeading: Bytes := [0x2A, 0x2A, 0xE5, 0x8E, 0x9F, 0x49, 0x73, 0x73, 0x75, 0x65, 0xE5, 0x86, 0x85, 0xE5, 0xAE, 0xB9, 0x3A, 0x2A, 0x2A, 0x0A]  // "**原Issue内容:**\n"
  const RequestHeading: Bytes := [0x0A, 0x0A, 0x2A, 0x2A, 0xE5, 0xBD, 0x93, 0xE5, 0x89, 0x8D, 0xE4, 0xBB, 0xA3, 0xE7, 0xA0, 0x81, 0xE4, 0xBF, 0xAE, 0xE6, 0x94, 0xB9, 0xE9, 0x9C, 0x80, 0xE6, 0xB1, 0x82, 0x3A, 0x2A, 0x2A, 0x0A]  // "\n\n**当前代码修改需求:**\n"

  /** The Issue handleCodeCommand hands to the pipeline: the same Issue with the
      request as its title and the original body followed by the request as
      its body. */
  function CodeRequestIssue(issue: Issue, args: Bytes): (r: Issue)
    ensures r.number == issue.number && r.url == issue.url && r.labels == issue.labels
    ensures HasSuffix(r.title, args) && HasPrefix(r.title, CodeTitlePrefix)
    ensures HasPrefix(r.body, OriginalHeading + issue.body) && HasSuffix(r.body, RequestHeading + args)
  {
    issue.(title := CodeTitlePrefix + args, body := OriginalHeading + issue.body + RequestHeading + args)
  }

  /** The original body comes before the request in the combined body. */
  lemma CodeRequestOrder(issue: Issue, args: Bytes)
    ensures var b := CodeRequestIssue(issue, args).body;
      MatchesAt(b, issue.body, |OriginalHeading|) &&
      MatchesAt(b, args, |b| - |args|) &&
      |OriginalHeading| + |issue.body| <= |b| - |args|
  {
    var b := CodeRequestIssue(issue, args).body;
    assert b[|OriginalHeading|..|OriginalHeading| + |issue.body|] == issue.body;
    assert b[|b| - |args|..] == args;
  }

  /** Replies on the code request go where replies on its Issue go. */
  lemma CodeRequestSameTarget(ctx: CommandContext, args: Bytes)
    requires ctx.issue.Some?
    ensures ReplyTarget(IssueContext(ctx.repository, CodeRequestIssue(ctx.issue.value, args), ctx.user)) == ReplyTarget(ctx)
  {
  }

  /** What autoAnalyzeAndModify does for the Issue: the clone comes first
      and the stages keep their order; a failed clone is only answered; after
      a successful clone the working copy is removed, the last call of all;
      exactly one reply is posted on the Issue. */
  predicate PipelineRan(issue: Issue, repo: Repository, sender: User, world: World, err: Option<Failure>, log: seq<Call>)
  {
    var clone := Clone(repo.cloneUrl, Main);
    var ctx := IssueContext(repo, issue, sender);
    Ordered(log) && |log| >= 1 && log[0] == clone &&
    (world([], clone).Refused? ==>
      log == [clone] + ReplyCalls(ctx, CloneFailedReply(world([], clone).message)) &&
      err == ReplyResult(world, [clone], ctx, CloneFailedReply(world([], clone).message))) &&
    (world([], clone).Done? ==>
      log[|log| - 1] == Cleanup(world([], clone).text) && forall i :: 0 <= i < |log| - 1 ==> !log[i].Cleanup?) &&
    RepliedOnce(world, log, ctx, err)
  }

  /** handleCodeCommand: starts the pipeline on the rewritten Issue. Without
      an Issue (a review comment) the Go code dereferences a nil pointer;
      that panic is the NilIssue failure here, with no call made. */
  method HandleCode(cmd: Command, ctx: CommandContext, timestamp: Bytes, decode: PlanDecoder, world: World)
    returns (err: Option<Failure>, log: seq<Call>)
    ensures ctx.issue.None? ==> err == Some(NilIssue) && log == []
    ensures ctx.issue.Some? ==>
      PipelineRan(CodeRequestIssue(ctx.issue.value, cmd.args), ctx.repository, ctx.user, world, err, log)
  {
    if ctx.issue.None? {
      return Some(NilIssue), [];
    }
    var modified := CodeRequestIssue(ctx.issue.value, cmd.args);
    err, log := AutoAnalyzeAndModify(modified, ctx.repository, ctx.user, timestamp, decode, world);
  }

  /** The errors a handler can return: a reply's, or the nil Issue. */
  predicate HandlerFailure(f: Failure)
  {
    ReplyFailure(f) || f == NilIssue
  }

  /** Exactly one reply means replying's failures only. */
  lemma RepliedOnceFailure(world: World, log: seq<Call>, ctx: CommandContext, err: Option<Failure>)
    requires RepliedOnce(world, log, ctx, err)
    ensures err.Some? ==> ReplyFailure(err.value)
  {
  }

  /** What running a command comes to: an unknown word is an error with no
      call; /code without an Issue is the nil-Issue failure with no call, and
      with one the pipeline on the code request; /continue and /fix ask the
      AI tool and reply with its answer; /help replies with the help text. */
  predicate Executed(cmd: Command, ctx: CommandContext, world: World, err: Option<Failure>, log: seq<Call>)
  {
    match HandlerFor(cmd.name)
    case None => err == Some(UnknownCommand(cmd.name)) && log == []
    case Some(h) =>
      match h
      case CodeHandler =>
        if ctx.issue.None? then err == Some(NilIssue) && log == []
        else PipelineRan(CodeRequestIssue(ctx.issue.value, cmd.args), ctx.repository, ctx.user, world, err, log)
      case ContinueHandler =>
        var c := ContinueCode(cmd.args, ProjectContext(ctx));
        log == [c] + ReplyCalls(ctx, ContinueReply(cmd.args, world([], c))) &&
        err == ReplyResult(world, [c], ctx, ContinueReply(cmd.args, world([], c)))
      case FixHandler =>
        var c := FixCode(cmd.args, ProjectContext(ctx));
        log == [c] + ReplyCalls(ctx, FixReply(cmd.args, world([], c))) &&
        err == ReplyResult(world, [c], ctx, FixReply(cmd.args, world([], c)))
      case HelpHandler =>
        log == ReplyCalls(ctx, HelpText) && err == ReplyResult(world, [], ctx, HelpText)
  }

  /** One AI call of the asking stage, then the reply: exactly one reply,
      whose failure is replying's. */
  lemma AskedThenReplied(world: World, c: Call, ctx: CommandContext, reply: Reply, err: Option<Failure>, log: seq<Call>)
    requires Stage(c) <= 11
    requires log == [c] + ReplyCalls(ctx, reply) && err == ReplyResult(world, [c], ctx, reply)
    ensures RepliedOnce(world, log, ctx, err)
    ensures err.Some? ==> ReplyFailure(err.value)
  {
    assert log == [c] + ReplyCalls(ctx, reply) + [];
    ReplyIsOnly(world, [c], ctx, reply, []);
    ReplyResultFailure(world, [c], ctx, reply);
  }

  /** The pipeline on the code request replies where the command came from. */
  lemma CodeReplies(cmd: Command, ctx: CommandContext, world: World, err: Option<Failure>, log: seq<Call>)
    requires ctx.issue.Some?
    requires PipelineRan(CodeRequestIssue(ctx.issue.value, cmd.args), ctx.repository, ctx.user, world, err, log)
    ensures RepliedOnce(world, log, ctx, err)
    ensures err.Some? ==> ReplyFailure(err.value)
  {
    var rebuilt := IssueContext(ctx.repository, CodeRequestIssue(ctx.issue.value, cmd.args), ctx.user);
    CodeRequestSameTarget(ctx, cmd.args);
    RepliedOnceFailure(world, log, rebuilt, err);
  }

  /** /code without an Issue is the nil-Issue failure with nothing called. */
  lemma ExecutedNilIssue(cmd: Command, ctx: CommandContext, world: World, err: Option<Failure>, log: seq<Call>)
    requires Executed(cmd, ctx, world, err, log)
    requires cmd.name == CodeName && ctx.issue.None?
    ensures err == Some(NilIssue) && log == []
  {
    assert HandlerFor(cmd.name) == Some(CodeHandler);
  }

  /** Every known command, but /code without an Issue, posts exactly one
      reply on the Issue or pull request the command came from, and fails
      only as replying does. */
  lemma ExecutedReplies(cmd: Command, ctx: CommandContext, world: World, err: Option<Failure>, log: seq<Call>)
    requires Executed(cmd, ctx, world, err, log)
    requires HandlerFor(cmd.name).Some? && !(cmd.name == CodeName && ctx.issue.None?)
    ensures RepliedOnce(world, log, ctx, err)
    ensures err.Some? ==> ReplyFailure(err.value)
  {
    match HandlerFor(cmd.name).value
    case CodeHandler =>
      CodeReplies(cmd, ctx, world, err, log);
    case ContinueHandler =>
      var c := ContinueCode(cmd.args, ProjectContext(ctx));
      AskedThenReplied(world, c, ctx, ContinueReply(cmd.args, world([], c)), err, log);
    case FixHandler =>
      var c := FixCode(cmd.args, ProjectContext(ctx));
      AskedThenReplied(world, c, ctx, FixReply(cmd.args, world([], c)), err, log);
    case HelpHandler =>
      assert log == [] + ReplyCalls(ctx, HelpText) + [];
      ReplyIsOnly(world, [], ctx, HelpText, []);
      ReplyResultFailure(world, [], ctx, HelpText);
  }

  /** executeCommand: the switch on the command word. */
  method ExecuteCommand(cmd: Command, ctx: CommandContext, timestamp: Bytes, decode: PlanDecoder, world: World)
    returns (err: Option<Failure>, log: seq<Call>)
    ensures Executed(cmd, ctx, world, err, log)
    ensures HandlerFor(cmd.name).Some? && err.Some? ==> HandlerFailure(err.value)
  {
    assert CodeName[0] != HelpName[0];
    var handler := HandlerFor(cmd.name);
    match handler
    case None =>
      err, log := Some(UnknownCommand(cmd.name)), [];
    case Some(CodeHandler) =>
      err, log := HandleCode(cmd, ctx, timestamp, decode, world);
      if ctx.issue.Some? {
        RepliedOnceFailure(world, log, IssueContext(ctx.repository, CodeRequestIssue(ctx.issue.value, cmd.args), ctx.user), err);
      }
    case Some(ContinueHandler) =>
      err, log := HandleContinue(cmd, ctx, world);
      ReplyResultFailure(world, [ContinueCode(cmd.args, ProjectContext(ctx))], ctx,
                         ContinueReply(cmd.args, world([], ContinueCode(cmd.args, ProjectContext(ctx)))));
    case Some(FixHandler) =>
      err, log := HandleFix(cmd, ctx, world);
      ReplyResultFailure(world, [FixCode(cmd.args, ProjectContext(ctx))], ctx,
                         FixReply(cmd.args, world([], FixCode(cmd.args, ProjectContext(ctx)))));
    case Some(HelpHandler) =>
      err, log := HandleHelp(ctx, world);
      ReplyResultFailure(world, [], ctx, HelpText);
  }

  /** The Inspect branch of ProcessEvent: runs the first command of the text,
      if there is one. */
  method RunFirstCommand(text: Bytes, ctx: CommandContext, timestamp: Bytes, decode: PlanDecoder, world: World)
    returns (err: Option<Failure>, log: seq<Call>)
    ensures FirstCommand(Lines(text)).None? ==> err == None && log == []
    ensures FirstCommand(Lines(text)).Some? ==> Executed(FirstCommand(Lines(text)).value, ctx, world, err, log)
    ensures err.Some? ==> HandlerFailure(err.value)
  {
    var command := ExtractCommand(text);
    if command.None? {
      return None, [];
    }
    err, log := ExecuteCommand(command.value, ctx, timestamp, decode, world);
  }

  /** ProcessEvent: routes the event, looks for a command in the text of an
      opened Issue or a created comment, and runs the first one found. */
  method ProcessEvent(event: GitHubEvent, json: Json, timestamp: Bytes, decode: PlanDecoder, world: World)
    returns (err: Option<Failure>, log: seq<Call>)
    ensures Route(event, json).Ignore? ==> err == None && log == []
    ensures Route(event, json).Reject? ==> err == Some(Route(event, json).failure) && log == []
    ensures Route(event, json).Inspect? && FirstCommand(Lines(Route(event, json).text)).None? ==> err == None && log == []
    ensures Route(event, json).Inspect? && FirstCommand(Lines(Route(event, json).text)).Some? ==>
      Executed(FirstCommand(Lines(Route(event, json).text)).value, Route(event, json).context, world, err, log)
    ensures err.Some? ==> !err.value.UnknownCommand?
    ensures log != [] ==> Route(event, json).Inspect? && FirstCommand(Lines(Route(event, json).text)).Some?
    ensures event.eventType == ReviewCommentType && Route(event, json).Inspect? &&
            FirstCommand(Lines(Route(event, json).text)).Some? &&
            FirstCommand(Lines(Route(event, json).text)).value.name == CodeName ==>
      err == Some(NilIssue) && log == []
  {
    var d := Route(event, json);
    match d
    case Ignore =>
      err, log := None, [];
    case Reject(f) =>
      err, log := Some(f), [];
    case Inspect(text, ctx) =>
      RouteContexts(event, json);
      err, log := RunFirstCommand(text, ctx, timestamp, decode, world);
      var command := FirstCommand(Lines(text));
      if command.Some? && command.value.name == CodeName && ctx.issue.None? {
        ExecutedNilIssue(command.value, ctx, world, err, log);
      }
  }
}
