/** The collaborators of the event processors and what talking to them leaves behind.

    Git subprocesses, the GitHub REST client and the AI backend are not modelled
    internally: each request the Go code makes is a `Call`, every call is appended
    to a log that the processing methods return, and the `World` decides each
    answer from the calls made so far and the call itself (so a later answer may
    depend on earlier writes, as it does on a real file system). */
module Effects {
  import opened Text

  /** An error value as the Go code returns it; the wording of the Chinese
      messages is not kept, only which error it is and the data it carries. */
  datatype Failure =
    | Remote(message: Bytes)               // an error reported by a collaborator
    | DecodeFailed(eventType: Bytes)        // the payload is not JSON of the expected shape
    | UnknownCommand(name: Bytes)
    | InvalidRepositoryName(fullName: Bytes)
    | NoReplyTarget                         // neither an Issue nor a pull request to answer on
    | NilIssue                              // a nil *Issue dereference: a Go panic, not an error value
    | PlanRequestFailed(message: Bytes)     // the AI backend refused the modification request
    | PlanParseFailed(reason: Failure)
    | NoJsonSpan                            // no '{' ... '}' span in the AI answer
    | JsonInvalid                           // the span is not a modification plan
    | NothingApplied                        // no file modification succeeded
    | UnsupportedAction(action: Bytes)
    | StageFailed(message: Bytes)
    | StatusFailed(message: Bytes)
    | CommitRejected(message: Bytes)
    | PushFailed(message: Bytes)
    | RateLimited(wait: int)                // nanoseconds still to wait before cloning again
    | CloneAttemptFailed(message: Bytes)
    | NoOutput                              // the AI CLI printed only white space
    | FileMissing(path: Bytes)
    | FileTooLarge(size: int, maxSize: int)

  /** A reply posted as a GitHub comment: which template and the values put into it. */
  datatype Reply =
    | CloneFailedReply(cause: Bytes)
    | AnalysisFailedReply(cause: Bytes)
    | ModificationFailedReply(reason: Failure)
    | CommitFailedReply(reason: Failure)
    | AutoFixDone(title: Bytes, number: int, branchLabel: Bytes, modification: Bytes, commit: Bytes)
    | GenerateFailedReply(cause: Bytes)
    | Generated(request: Bytes, code: Bytes)
    | ContinueFailedReply(cause: Bytes)
    | Continued(instruction: Bytes, code: Bytes)
    | FixFailedReply(cause: Bytes)
    | Fixed(problem: Bytes, code: Bytes)
    | HelpText

  /** One request to a collaborator. AI calls carry the values their prompt
      template is filled with. */
  datatype Call =
    | Clone(url: Bytes, branch: Bytes)
    | FileTree(path: Bytes)
    | ConfigureGit(path: Bytes, name: Bytes, email: Bytes)
    | Analyze(title: Bytes, body: Bytes, tree: Bytes)
    | CreateBranch(path: Bytes, branch: Bytes)
    | RequestPlan(title: Bytes, body: Bytes, number: int, analysis: Bytes)
    | WriteFile(path: Bytes, file: Bytes, content: Bytes)
    | DeleteFile(path: Bytes, file: Bytes)
    | StageFiles(path: Bytes, files: seq<Bytes>)
    | StagedNames(path: Bytes)  // `git diff --cached --name-only`, whose output says whether anything is staged
    | Commit(path: Bytes, message: Bytes)
    | Push(path: Bytes, branch: Bytes)
    | OpenPullRequest(owner: Bytes, repo: Bytes, title: Bytes, issueNumber: int, head: Bytes, base: Bytes)
    | Generate(request: Bytes, context: Bytes)
    | ContinueCode(instruction: Bytes, context: Bytes)
    | FixCode(problem: Bytes, context: Bytes)
    | PostComment(owner: Bytes, repo: Bytes, number: int, reply: Reply)
    | Cleanup(path: Bytes)

  /** A collaborator's answer: a result text, or the text of the error it returned. */
  datatype Answer = Done(text: Bytes) | Refused(message: Bytes)

  /** The answer to each call, given the calls made before it. */
  type World = (seq<Call>, Call) -> Answer

  /** A Go function result: a value or an error. */
  datatype Outcome<+T> = Ok(value: T) | Fail(failure: Failure)

  /** The error an answer turns into when only its success matters. */
  function AnswerError(a: Answer): (r: Option<Failure>)
    ensures r.None? <==> a.Done?
    ensures a.Refused? ==> r == Some(Remote(a.message))
  {
    if a.Done? then None else Some(Remote(a.message))
  }

  /** Makes one call: asks the world and appends the call to the log. */
  method Perform(world: World, log: seq<Call>, c: Call) returns (a: Answer, log': seq<Call>)
    ensures a == world(log, c)
    ensures log' == log + [c]
    ensures Ordered(log) && Top(log) <= Stage(c) ==> Ordered(log')
    ensures Top(log') == Stage(c)
  {
    a := world(log, c);
    log' := log + [c];
    if Ordered(log) && Top(log) <= Stage(c) {
      OrderedSnoc(log, c);
    }
  }

  // ---------------------------------------------------------------------
  // The order of the auto-fix pipeline

  /** The position of each kind of call in the clone, analyse, branch, apply,
      commit, push, pull request, reply, clean-up sequence. */
  function Stage(c: Call): nat
  {
    match c
    case Clone(_, _) => 0
    case FileTree(_) => 1
    case ConfigureGit(_, _, _) => 2
    case Analyze(_, _, _) => 3
    case CreateBranch(_, _) => 4
    case RequestPlan(_, _, _, _) => 5
    case Generate(_, _) => 5
    case ContinueCode(_, _) => 5
    case FixCode(_, _) => 5
    case WriteFile(_, _, _) => 6
    case DeleteFile(_, _) => 6
    case StageFiles(_, _) => 7
    case StagedNames(_) => 8
    case Commit(_, _) => 9
    case Push(_, _) => 10
    case OpenPullRequest(_, _, _, _, _, _) => 11
    case PostComment(_, _, _, _) => 12
    case Cleanup(_) => 13
  }

  /** Each call is at the same stage as its predecessor or a later one. */
  predicate Ordered(log: seq<Call>)
    decreases |log|
  {
    |log| <= 1 || (Stage(log[|log| - 2]) <= Stage(log[|log| - 1]) && Ordered(log[..|log| - 1]))
  }

  /** The stage of the last call (0 for an empty log). */
  function Top(log: seq<Call>): nat
  {
    if log == [] then 0 else Stage(log[|log| - 1])
  }

  /** A call no earlier than the last one keeps a log ordered. */
  lemma OrderedSnoc(log: seq<Call>, c: Call)
    requires Ordered(log) && Top(log) <= Stage(c)
    ensures Ordered(log + [c]) && Top(log + [c]) == Stage(c)
  {
    assert (log + [c])[..|log|] == log;
  }

  /** In an ordered log every call is at most at the stage of the last one. */
  lemma {:induction false} OrderedBelowTop(log: seq<Call>, i: nat)
    requires Ordered(log) && i < |log|
    ensures Stage(log[i]) <= Top(log)
    decreases |log|
  {
    if i < |log| - 1 {
      var init := log[..|log| - 1];
      OrderedBelowTop(init, i);
      assert init[i] == log[i];
    }
  }

  /** In an ordered log no call comes at an earlier stage than one before it. */
  lemma OrderedPairwise(log: seq<Call>, i: nat, j: nat)
    requires Ordered(log) && i <= j < |log|
    ensures Stage(log[i]) <= Stage(log[j])
  {
    OrderedPrefix(log, j + 1);
    OrderedBelowTop(log[..j + 1], i);
    assert log[..j + 1][i] == log[i];
  }

  /** Every prefix of an ordered log is ordered. */
  lemma {:induction false} OrderedPrefix(log: seq<Call>, n: nat)
    requires Ordered(log) && n <= |log|
    ensures Ordered(log[..n])
    decreases |log|
  {
    if n < |log| {
      var init := log[..|log| - 1];
      OrderedPrefix(init, n);
      assert init[..n] == log[..n];
    } else {
      assert log[..n] == log;
    }
  }
}
