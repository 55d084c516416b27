/** The earlier event processor (webhook-demo/internal/services/event_processor.go):
    the same routers, command extraction and reply target as the main one, but
    every command only asks the AI backend for text and posts it as a reply;
    nothing is cloned, committed or pushed. */
module DemoEventProcessor {
  import opened Text
  import opened Models
  import opened Effects
  import opened Commands

  /** The reply of /code for the backend's answer: the generated code, or the
      backend's error. */
  function GenerateReply(request: Bytes, a: Answer): Reply
  {
    match a
    case Done(code) => Generated(request, code)
    case Refused(message) => GenerateFailedReply(message)
  }

  /** The reply each handler posts for the backend's answer. */
  function HandlerReply(h: Handler, args: Bytes, a: Answer): Reply
  {
    match h
    case CodeHandler => GenerateReply(args, a)
    case ContinueHandler => ContinueReply(args, a)
    case FixHandler => FixReply(args, a)
    case HelpHandler => HelpText
  }

  /** The backend request each handler makes first; /help makes none. */
  function HandlerCalls(h: Handler, args: Bytes, ctx: CommandContext): seq<Call>
  {
    match h
    case CodeHandler => [Generate(args, ProjectContext(ctx))]
    case ContinueHandler => [ContinueCode(args, ProjectContext(ctx))]
    case FixHandler => [FixCode(args, ProjectContext(ctx))]
    case HelpHandler => []
  }

  /** handleCodeCommand: asks the backend to generate code for the request
      with the project context, then replies with the code or, on a backend
      error, with the error; it never returns the backend error itself. */
  method HandleCode(cmd: Command, ctx: CommandContext, world: World) returns (err: Option<Failure>, log: seq<Call>)
    ensures var c := Generate(cmd.args, ProjectContext(ctx));
      log == [c] + ReplyCalls(ctx, GenerateReply(cmd.args, world([], c))) &&
      err == ReplyResult(world, [c], ctx, GenerateReply(cmd.args, world([], c)))
  {
    var context := BuildProjectContext(ctx);
    var answer;
    answer, log := Perform(world, [], Generate(cmd.args, context));
    assert log == [Generate(cmd.args, context)];
    err, log := CreateResponse(ctx, GenerateReply(cmd.args, answer), world, log);
  }

  /** The backend's answer a handler replies with; /help asks nothing and
      replies with fixed text. */
  function FirstAnswer(h: Handler, cmd: Command, ctx: CommandContext, world: World): Answer
  {
    var asked := HandlerCalls(h, cmd.args, ctx);
    if asked == [] then Done([]) else world([], asked[0])
  }

  /** The calls a known command makes: its backend request, then the reply. */
  function CommandCalls(h: Handler, cmd: Command, ctx: CommandContext, world: World): seq<Call>
  {
    HandlerCalls(h, cmd.args, ctx) + ReplyCalls(ctx, HandlerReply(h, cmd.args, FirstAnswer(h, cmd, ctx, world)))
  }

  /** What a known command returns: createResponse's error for its reply. */
  function CommandResult(h: Handler, cmd: Command, ctx: CommandContext, world: World): Option<Failure>
  {
    ReplyResult(world, HandlerCalls(h, cmd.args, ctx), ctx, HandlerReply(h, cmd.args, FirstAnswer(h, cmd, ctx, world)))
  }

  /** What executeCommand returns for a command: the unknown-command error,
      or the handler's result. */
  function CommandError(cmd: Command, ctx: CommandContext, world: World): Option<Failure>
  {
    match HandlerFor(cmd.name)
    case None => Some(UnknownCommand(cmd.name))
    case Some(h) => CommandResult(h, cmd, ctx, world)
  }

  /** The calls and the result of executeCommand on a command: an unknown word
      calls nothing; a known one makes its handler's calls and returns what
      replying returns. */
  predicate Executed(cmd: Command, ctx: CommandContext, world: World, err: Option<Failure>, log: seq<Call>)
  {
    err == CommandError(cmd, ctx, world) &&
    match HandlerFor(cmd.name)
    case None => log == []
    case Some(h) => log == CommandCalls(h, cmd, ctx, world)
  }

  /** A command posts exactly one reply, as its last call, on the Issue or
      pull request createResponse picks; without a target it posts none and
      fails with createResponse's error. */
  predicate RepliesLast(log: seq<Call>, ctx: CommandContext, err: Option<Failure>)
  {
    match ReplyTarget(ctx)
    case Fail(f) => err == Some(f) && forall i :: 0 <= i < |log| ==> !log[i].PostComment?
    case Ok(t) =>
      |log| >= 1 && log[|log| - 1].PostComment? &&
      log[|log| - 1].owner == t.owner && log[|log| - 1].repo == t.repo && log[|log| - 1].number == t.number &&
      forall i :: 0 <= i < |log| - 1 ==> !log[i].PostComment?
  }

  /** Every known command replies once, last, and fails only as replying does. */
  lemma {:induction false} CommandCallsReply(h: Handler, cmd: Command, ctx: CommandContext, world: World)
    ensures RepliesLast(CommandCalls(h, cmd, ctx, world), ctx, CommandResult(h, cmd, ctx, world))
    ensures CommandResult(h, cmd, ctx, world).Some? ==> ReplyFailure(CommandResult(h, cmd, ctx, world).value)
  {
    var asked := HandlerCalls(h, cmd.args, ctx);
    var reply := HandlerReply(h, cmd.args, FirstAnswer(h, cmd, ctx, world));
    var log := CommandCalls(h, cmd, ctx, world);
    assert log == asked + ReplyCalls(ctx, reply);
    forall i | 0 <= i < |asked|
      ensures !log[i].PostComment?
    {
      assert log[i] == asked[i];
    }
    ReplyResultFailure(world, asked, ctx, reply);
  }

  /** An executed known command replied once, last, and its error, if any,
      is replying's error. */
  lemma ExecutedReplies(cmd: Command, ctx: CommandContext, world: World, err: Option<Failure>, log: seq<Call>)
    requires Executed(cmd, ctx, world, err, log)
    requires HandlerFor(cmd.name).Some?
    ensures RepliesLast(log, ctx, err)
    ensures err.Some? ==> ReplyFailure(err.value)
  {
    CommandCallsReply(HandlerFor(cmd.name).value, cmd, ctx, world);
  }

  /** executeCommand: the switch on the command word; an unknown word is an
      error and nothing is called. */
  method ExecuteCommand(cmd: Command, ctx: CommandContext, world: World)
    returns (err: Option<Failure>, log: seq<Call>)
    ensures Executed(cmd, ctx, world, err, log)
    ensures HandlerFor(cmd.name).Some? ==> RepliesLast(log, ctx, err) && (err.Some? ==> ReplyFailure(err.value))
  {
    var handler := HandlerFor(cmd.name);
    match handler
    case None =>
      err, log := Some(UnknownCommand(cmd.name)), [];
    case Some(h) =>
      match h
      case CodeHandler =>
        err, log := HandleCode(cmd, ctx, world);
      case ContinueHandler =>
        err, log := HandleContinue(cmd, ctx, world);
      case FixHandler =>
        err, log := HandleFix(cmd, ctx, world);
      case HelpHandler =>
        err, log := HandleHelp(ctx, world);
      ExecutedReplies(cmd, ctx, world, err, log);
  }

  /** The Inspect branch of ProcessEvent: runs the first command of the text,
      if there is one. */
  method RunFirstCommand(text: Bytes, ctx: CommandContext, world: World)
    returns (err: Option<Failure>, log: seq<Call>)
    ensures FirstCommand(Lines(text)).None? ==> err == None && log == []
    ensures FirstCommand(Lines(text)).Some? ==> Executed(FirstCommand(Lines(text)).value, ctx, world, err, log)
    ensures FirstCommand(Lines(text)).Some? ==> RepliesLast(log, ctx, err)
    ensures err.Some? ==> ReplyFailure(err.value)
  {
    var command := ExtractCommand(text);
    if command.None? {
      return None, [];
    }
    err, log := ExecuteCommand(command.value, ctx, world);
  }

  /** ProcessEvent: routes the event and runs the first command of the text
      of an opened Issue or a created comment. Ignored events and texts
      without a command call nothing; a found command always replies. */
  method ProcessEvent(event: GitHubEvent, json: Json, world: World)
    returns (err: Option<Failure>, log: seq<Call>)
    ensures Route(event, json).Ignore? ==> err == None && log == []
    ensures Route(event, json).Reject? ==> err == Some(Route(event, json).failure) && log == []
    ensures Route(event, json).Inspect? && FirstCommand(Lines(Route(event, json).text)).None? ==> err == None && log == []
    ensures Route(event, json).Inspect? && FirstCommand(Lines(Route(event, json).text)).Some? ==>
      Executed(FirstCommand(Lines(Route(event, json).text)).value, Route(event, json).context, world, err, log)
    ensures Route(event, json).Inspect? && FirstCommand(Lines(Route(event, json).text)).Some? ==>
      RepliesLast(log, Route(event, json).context, err)
    ensures err.Some? ==> ReplyFailure(err.value) || err.value.DecodeFailed?
    ensures log != [] ==> Route(event, json).Inspect? && FirstCommand(Lines(Route(event, json).text)).Some?
  {
    var d := Route(event, json);
    match d
    case Ignore =>
      err, log := None, [];
    case Reject(f) =>
      err, log := Some(f), [];
    case Inspect(text, ctx) =>
      err, log := RunFirstCommand(text, ctx, world);
  }
}
