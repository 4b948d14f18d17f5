/**
 * The launch planner: a validated intent and the trusted configuration become
 * an argv, and that argv a command line for the shell or process that runs it.
 */
module LaunchPlan {
  import opened Options
  import LaunchTokenizer
  import WindowsArgv
  import PosixShell

  datatype PromptMode = Argv | FlagPrompt | FlagInteractive | StdinAfterStart

  datatype Intent =
    | StartAgent(prompt: Option<string>, permissionMode: Option<string>, newSessionId: Option<string>)
    | ResumeAgent(sessionId: string, permissionMode: Option<string>)

  datatype Config = Config(
    id: string, launchCmd: string, promptMode: PromptMode, separator: string, promptFlag: Option<string>, builtin: bool)

  /** The agent catalogue and host facts the planner is given. */
  datatype Context = Context(
    program: (string, string) -> string,          // a builtin's program for (agent, configured program)
    approval: (string, string) -> seq<string>,    // approval flags for (agent, mode)
    hasPermissionMode: string -> bool, canResume: string -> bool, mintsSessionId: string -> bool,
    codexNoDaemon: bool, bytes: string -> nat)

  datatype Logical = Logical(executable: string, args: seq<string>, stdin: Option<string>)
  datatype Prepared = Prepared(command: string, stdin: Option<string>)

  const NO_DAEMON_FLAG := "--no-daemon"
  const MAX_ARGUMENT_BYTES: nat := 30_000
  const MAX_COMMAND_BYTES: nat := 32_000
  const MAX_WINDOWS_LINE: nat := 32_700

  predicate HasPrefix(s: string, p: string) {
    |p| <= |s| && s[..|p|] == p
  }

  function ModeFlags(mode: Option<string>, config: Config, ctx: Context, base: seq<string>): seq<string> {
    var approval := if mode.Some? then ctx.approval(config.id, mode.value) else [];
    var own := exists a | a in base :: a == NO_DAEMON_FLAG || a == "--remote" || HasPrefix(a, "--remote=");
    approval + if config.id == "codex" && ctx.codexNoDaemon && !own then [NO_DAEMON_FLAG] else []
  }

  function ResumeArgs(id: string, session: string): seq<string> {
    if id == "codex" then ["resume", session]
    else if id == "opencode" then ["--session", session]
    else if id == "copilot" then ["--resume=" + session]
    else if id == "antigravity" then ["--conversation=" + session]
    else if id == "pi" then ["--session-id", session]
    else ["--resume", session]
  }

  function SessionArgs(id: string, session: Option<string>): seq<string> {
    if session.None? then []
    else if id == "copilot" then ["--session-id=" + session.value]
    else if id == "cursor" then ["--resume", session.value]
    else ["--session-id", session.value]
  }

  /** A prompt given on the command line, if any. */
  function OneOf(prompt: Option<string>): seq<string> {
    if prompt.Some? then [prompt.value] else []
  }

  function StartLaunch(exe: string, base: seq<string>, flags: seq<string>, session: seq<string>, config: Config, prompt: Option<string>): Logical {
    var mode := if config.builtin && (config.id == "gemini" || config.id == "pi") then Argv else config.promptMode;
    if config.builtin && config.id == "pi" then Logical(exe, base + flags + session + OneOf(prompt), None)
    else if mode == StdinAfterStart then Logical(exe, base + flags + session, prompt)
    else if mode == FlagPrompt || mode == FlagInteractive then
      var flag := if mode == FlagPrompt then "--prompt" else if config.promptFlag.Some? then config.promptFlag.value else "--interactive";
      Logical(exe, base + (if prompt.Some? then [flag, prompt.value] else []) + flags + session, None)
    else if prompt.Some? && config.separator != "" then
      Logical(exe, base + flags + session + [config.separator, prompt.value], None)
    else Logical(exe, base + OneOf(prompt) + flags + session, None)
  }

  /** The argv of the launch, or `None` when the intent or the configuration is refused. */
  function LogicalLaunch(intent: Intent, config: Config, ctx: Context): Option<Logical> {
    var parsed := LaunchTokenizer.Parse(config.launchCmd);
    if parsed.None? then None
    else
      var exe := if config.builtin then ctx.program(config.id, parsed.value[0]) else parsed.value[0];
      var base := parsed.value[1..];
      if intent.permissionMode.Some? && !ctx.hasPermissionMode(config.id) then None
      else
        var flags := ModeFlags(intent.permissionMode, config, ctx, base);
        match intent
        case ResumeAgent(session, _) =>
          if !config.builtin || !ctx.canResume(config.id) then None
          else Some(Logical(exe, base + ResumeArgs(config.id, session) + flags, None))
        case StartAgent(prompt, _, session) =>
          if session.Some? && !ctx.mintsSessionId(config.id) then None
          else Some(StartLaunch(exe, base, flags, SessionArgs(config.id, session), config, prompt))
  }

  /** The command line for a POSIX shell. */
  function PreparePosix(intent: Intent, config: Config, ctx: Context): Option<Prepared> {
    if !config.builtin && config.promptMode == StdinAfterStart then None
    else
      var l := LogicalLaunch(intent, config, ctx);
      if l.None? then None
      else
        var tokens := [l.value.executable] + l.value.args;
        var command := PosixShell.Command(tokens);
        if (exists t | t in tokens :: ctx.bytes(t) > MAX_ARGUMENT_BYTES) || ctx.bytes(command) > MAX_COMMAND_BYTES then None
        else Some(Prepared(command, l.value.stdin))
  }

  /** The argument line handed to a native Windows process. */
  function NativeLine(l: Logical): Option<string> {
    var line := WindowsArgv.Line(l.args);
    if |l.executable| + |line| + 2 > MAX_WINDOWS_LINE then None else Some(line)
  }

  // ----- what reaches the program -----

  /** The shell reads a planned command as exactly the launch's executable and arguments. */
  lemma ShellReceivesTheLaunch(intent: Intent, config: Config, ctx: Context)
    requires PreparePosix(intent, config, ctx).Some?
    ensures var l := LogicalLaunch(intent, config, ctx);
            && l.Some?
            && PosixShell.Words(PreparePosix(intent, config, ctx).value.command, PosixShell.Bare, PosixShell.NoWord)
               == Some([l.value.executable] + l.value.args)
  {
    var l := LogicalLaunch(intent, config, ctx).value;
    PosixShell.CommandRoundTrips([l.executable] + l.args);
  }

  /** A native process takes its argument line apart into exactly the launch's arguments. */
  lemma ProcessReceivesTheArguments(l: Logical, doubled: bool)
    requires NativeLine(l).Some?
    ensures WindowsArgv.Read(NativeLine(l).value, WindowsArgv.BETWEEN, doubled) == l.args
  {
    WindowsArgv.LineRoundTrips(l.args, doubled);
  }

  /**
   * The argv parsed from the launch field reaches the shell intact, whoever wrote the field: its program
   * (after any builtin substitution) first, then its own arguments, before anything the planner adds.
   */
  lemma LaunchFieldReachesTheShell(argv: seq<string>, intent: Intent, config: Config, ctx: Context)
    requires LaunchTokenizer.Parse(config.launchCmd) == Some(argv) && PreparePosix(intent, config, ctx).Some?
    ensures var words := PosixShell.Words(PreparePosix(intent, config, ctx).value.command, PosixShell.Bare, PosixShell.NoWord);
            && words.Some? && words.value != []
            && words.value[0] == (if config.builtin then ctx.program(config.id, argv[0]) else argv[0])
            && argv[1..] <= words.value[1..]
  {
    ShellReceivesTheLaunch(intent, config, ctx);
    var l := LogicalLaunch(intent, config, ctx).value;
    BaseComesFirst(argv, intent, config, ctx);
    assert ([l.executable] + l.args)[1..] == l.args;
  }

  /** So any argv that can be launched at all can be written into the field, word by word in quotes. */
  lemma PrintedFieldReachesTheShell(argv: seq<string>, intent: Intent, config: Config, ctx: Context)
    requires LaunchTokenizer.Launchable(argv) && config.launchCmd == LaunchTokenizer.Print(argv)
    requires PreparePosix(intent, config, ctx).Some?
    ensures var words := PosixShell.Words(PreparePosix(intent, config, ctx).value.command, PosixShell.Bare, PosixShell.NoWord);
            && words.Some? && words.value != []
            && words.value[0] == (if config.builtin then ctx.program(config.id, argv[0]) else argv[0])
            && argv[1..] <= words.value[1..]
  {
    LaunchTokenizer.ParseInvertsPrint(argv);
    LaunchFieldReachesTheShell(argv, intent, config, ctx);
  }

  lemma BaseComesFirst(argv: seq<string>, intent: Intent, config: Config, ctx: Context)
    requires LaunchTokenizer.Parse(config.launchCmd) == Some(argv) && argv != [] && LogicalLaunch(intent, config, ctx).Some?
    ensures var l := LogicalLaunch(intent, config, ctx).value;
            argv[1..] <= l.args && l.executable == if config.builtin then ctx.program(config.id, argv[0]) else argv[0]
  {
  }

  /** `with` is `without` with one or two words put in at `i`, the last of them the prompt. */
  predicate PutIn(args: seq<string>, without: seq<string>, i: nat, k: nat, prompt: string) {
    1 <= k <= 2 && i + k <= |args| && args[..i] + args[i + k..] == without && args[i + k - 1] == prompt
  }

  /**
   * A prompt changes nothing else: the same start without it is the same program, its own arguments,
   * the approval and session flags in that order; with it, those very words plus the prompt in one
   * place (after at most one flag or separator of its own), or the prompt held back for standard input.
   */
  lemma PromptIsSeparable(prompt: string, mode: Option<string>, session: Option<string>, config: Config, ctx: Context)
    requires LaunchTokenizer.Parse(config.launchCmd).Some?
    ensures var with' := LogicalLaunch(StartAgent(Some(prompt), mode, session), config, ctx);
            var bare := LogicalLaunch(StartAgent(None, mode, session), config, ctx);
            var base := LaunchTokenizer.Parse(config.launchCmd).value[1..];
            && with'.Some? == bare.Some?
            && (bare.Some? ==>
                  && bare.value.args == base + ModeFlags(mode, config, ctx, base) + SessionArgs(config.id, session)
                  && bare.value.stdin.None? && with'.value.executable == bare.value.executable
                  && if with'.value.stdin.Some? then with'.value.args == bare.value.args && with'.value.stdin == Some(prompt)
                     else exists i, k :: |base| <= i && PutIn(with'.value.args, bare.value.args, i, k, prompt))
  {
    hide LaunchTokenizer.Parse, ModeFlags, SessionArgs;
    var with' := LogicalLaunch(StartAgent(Some(prompt), mode, session), config, ctx);
    var bare := LogicalLaunch(StartAgent(None, mode, session), config, ctx);
    if bare.Some? {
      var base := LaunchTokenizer.Parse(config.launchCmd).value[1..];
      StartPromptIsSeparable(prompt, bare.value.executable, base, ModeFlags(mode, config, ctx, base), SessionArgs(config.id, session), config);
    }
  }

  lemma StartPromptIsSeparable(prompt: string, exe: string, base: seq<string>, flags: seq<string>, session: seq<string>, config: Config)
    ensures var with' := StartLaunch(exe, base, flags, session, config, Some(prompt));
            var bare := StartLaunch(exe, base, flags, session, config, None);
            && bare == Logical(exe, base + flags + session, None) && with'.executable == exe
            && if with'.stdin.Some? then with'.args == bare.args && with'.stdin == Some(prompt)
               else exists i, k :: |base| <= i && PutIn(with'.args, bare.args, i, k, prompt)
  {
    var with' := StartLaunch(exe, base, flags, session, config, Some(prompt));
    var bare := StartLaunch(exe, base, flags, session, config, None);
    assert base + [] + flags + session == base + flags + session;
    assert base + flags + session + [] == base + flags + session;
    if with'.stdin.None? {
      var mode := if config.builtin && (config.id == "gemini" || config.id == "pi") then Argv else config.promptMode;
      var pi := config.builtin && config.id == "pi";
      var flagged := mode == FlagPrompt || mode == FlagInteractive;
      var separated := !flagged && config.separator != "";
      var i := if pi || separated then |bare.args| else |base|;
      var k := if !pi && (flagged || separated) then 2 else 1;
      assert with'.args[..i] + with'.args[i + k..] == bare.args;
      assert with'.args[i + k - 1] == prompt;
      assert PutIn(with'.args, bare.args, i, k, prompt);
    }
  }

  // ----- sessions, flags and refusals -----

  /** The word is the session's id, or a flag given it behind an equals sign. */
  predicate Names(word: string, session: string) {
    word == session || (|word| > |session| && word[|word| - |session| - 1..] == "=" + session)
  }

  predicate NamesLast(words: seq<string>, session: string) {
    1 <= |words| <= 2 && Names(words[|words| - 1], session)
  }

  lemma FlagNames(flag: string, session: string)
    requires flag != "" && flag[|flag| - 1] == '='
    ensures Names(flag + session, session)
  {
    var word := flag + session;
    assert word[|flag| - 1..] == "=" + session;
  }

  /** Each grammar for resuming or minting a session is a flag or verb and, last, the id. */
  lemma SessionIsNamed(id: string, session: string)
    ensures NamesLast(ResumeArgs(id, session), session) && NamesLast(SessionArgs(id, Some(session)), session)
  {
    hide Names;
    NamesItself(session);
    FlagNames("--resume=", session);
    FlagNames("--conversation=", session);
    FlagNames("--session-id=", session);
  }

  lemma NamesItself(session: string)
    ensures Names(session, session)
  {
  }

  /** No two sessions are resumed or minted by the same words. */
  lemma SessionsDiffer(id: string, a: string, b: string)
    ensures ResumeArgs(id, a) == ResumeArgs(id, b) ==> a == b
    ensures SessionArgs(id, Some(a)) == SessionArgs(id, Some(b)) ==> a == b
  {
    Behind("--resume=", a, b);
    Behind("--conversation=", a, b);
    Behind("--session-id=", a, b);
    if ResumeArgs(id, a) == ResumeArgs(id, b) { assert ResumeArgs(id, a)[|ResumeArgs(id, a)| - 1] == ResumeArgs(id, b)[|ResumeArgs(id, b)| - 1]; }
    var m, m' := SessionArgs(id, Some(a)), SessionArgs(id, Some(b));
    if m == m' { assert m[|m| - 1] == m'[|m'| - 1]; }
  }

  lemma Behind(flag: string, a: string, b: string)
    ensures flag + a == flag + b ==> a == b
  {
    assert (flag + a)[|flag|..] == a && (flag + b)[|flag|..] == b;
  }

  /** A resumed session is named in what the shell reads, between the field's own words and the mode's flags. */
  lemma ResumeReachesTheShell(session: string, mode: Option<string>, config: Config, ctx: Context)
    requires PreparePosix(ResumeAgent(session, mode), config, ctx).Some?
    ensures var p := PreparePosix(ResumeAgent(session, mode), config, ctx).value;
            var words := PosixShell.Words(p.command, PosixShell.Bare, PosixShell.NoWord);
            var base := LaunchTokenizer.Parse(config.launchCmd);
            && words.Some? && base.Some? && p.stdin.None?
            && words.value != []
            && exists r :: NamesLast(r, session) && words.value[1..] == base.value[1..] + r + ModeFlags(mode, config, ctx, base.value[1..])
  {
    hide LaunchTokenizer.Parse, PosixShell.Words, PosixShell.Command, ModeFlags, ResumeArgs, Names;
    ShellReceivesTheLaunch(ResumeAgent(session, mode), config, ctx);
    SessionIsNamed(config.id, session);
    var l := LogicalLaunch(ResumeAgent(session, mode), config, ctx).value;
    var argv, r := LaunchTokenizer.Parse(config.launchCmd).value, ResumeArgs(config.id, session);
    var flags := ModeFlags(mode, config, ctx, argv[1..]);
    assert ([l.executable] + l.args)[1..] == l.args == argv[1..] + r + flags;
    assert NamesLast(r, session);
  }

  /** Codex is told to run without its daemon exactly where the host says so and the field does not decide itself. */
  lemma DaemonFlagOnce(mode: Option<string>, config: Config, ctx: Context, base: seq<string>)
    ensures var approval := if mode.Some? then ctx.approval(config.id, mode.value) else [];
            var flags := ModeFlags(mode, config, ctx, base);
            && approval <= flags && |flags| <= |approval| + 1
            && (|flags| > |approval|
                <==> config.id == "codex" && ctx.codexNoDaemon
                     && !(exists a | a in base :: a == "--no-daemon" || a == "--remote" || HasPrefix(a, "--remote=")))
            && (|flags| > |approval| ==> flags[|approval|] == "--no-daemon")
  {
  }

  /** What an intent asks of a configuration before anything is put together. */
  predicate Granted(intent: Intent, config: Config, ctx: Context) {
    && (intent.permissionMode.Some? ==> ctx.hasPermissionMode(config.id))
    && match intent
       case ResumeAgent(_, _) => config.builtin && ctx.canResume(config.id)
       case StartAgent(_, _, session) => session.Some? ==> ctx.mintsSessionId(config.id)
  }

  /**
   * A launch is planned exactly when the field parses, the agent grants what is asked, no custom agent
   * wants its prompt on standard input, and neither a word nor the command is too long.
   */
  lemma PlannedExactlyWhen(intent: Intent, config: Config, ctx: Context)
    ensures PreparePosix(intent, config, ctx).Some?
            <==> && LaunchTokenizer.Parse(config.launchCmd).Some? && Granted(intent, config, ctx)
                 && (config.promptMode == StdinAfterStart ==> config.builtin)
                 && LogicalLaunch(intent, config, ctx).Some?
                 && var l := LogicalLaunch(intent, config, ctx).value;
                    && (forall t | t in [l.executable] + l.args :: ctx.bytes(t) <= 30_000)
                    && ctx.bytes(PosixShell.Command([l.executable] + l.args)) <= 32_000
    ensures LogicalLaunch(intent, config, ctx).Some? <==> LaunchTokenizer.Parse(config.launchCmd).Some? && Granted(intent, config, ctx)
  {
    hide LaunchTokenizer.Parse, PosixShell.Command, ModeFlags, ResumeArgs, SessionArgs, StartLaunch;
  }

  /**
   * A prompt is delivered once: on standard input for a builtin that takes it there (Gemini and pi never
   * do), with the words unchanged, or among the words the shell reads, and then not on standard input.
   */
  lemma PromptIsDelivered(prompt: string, mode: Option<string>, session: Option<string>, config: Config, ctx: Context)
    requires PreparePosix(StartAgent(Some(prompt), mode, session), config, ctx).Some?
    ensures var p := PreparePosix(StartAgent(Some(prompt), mode, session), config, ctx).value;
            var words := PosixShell.Words(p.command, PosixShell.Bare, PosixShell.NoWord);
            && words.Some?
            && if config.promptMode == StdinAfterStart && config.id != "gemini" && config.id != "pi" then p.stdin == Some(prompt)
               else p.stdin.None? && prompt in words.value
  {
    hide LaunchTokenizer.Parse, PosixShell.Words, PosixShell.Command, ModeFlags, SessionArgs;
    var intent := StartAgent(Some(prompt), mode, session);
    ShellReceivesTheLaunch(intent, config, ctx);
    PromptIsSeparable(prompt, mode, session, config, ctx);
    var l := LogicalLaunch(intent, config, ctx).value;
    StdinWhen(prompt, l.executable, LaunchTokenizer.Parse(config.launchCmd).value[1..],
              ModeFlags(mode, config, ctx, LaunchTokenizer.Parse(config.launchCmd).value[1..]), SessionArgs(config.id, session), config);
    if l.stdin.None? {
      var bare := LogicalLaunch(StartAgent(None, mode, session), config, ctx).value;
      var i: nat, k: nat :| PutIn(l.args, bare.args, i, k, prompt);
      PutInIsThere(l.args, bare.args, i, k, prompt);
    }
  }

  lemma PutInIsThere(args: seq<string>, without: seq<string>, i: nat, k: nat, prompt: string)
    requires PutIn(args, without, i, k, prompt)
    ensures prompt in args
  {
  }

  lemma StdinWhen(prompt: string, exe: string, base: seq<string>, flags: seq<string>, session: seq<string>, config: Config)
    ensures StartLaunch(exe, base, flags, session, config, Some(prompt)).stdin.Some?
            <==> config.promptMode == StdinAfterStart && !(config.builtin && (config.id == "gemini" || config.id == "pi"))
  {
  }

  /**
   * How a prompt among the words is introduced: pi's is the last word; a flag of the agent's own stands
   * before it right after the field's words; a separator before it at the end; else it stands bare after
   * the field's words. Gemini's is always bare or behind the separator.
   */
  lemma PromptIsIntroduced(prompt: string, mode: Option<string>, session: Option<string>, config: Config, ctx: Context)
    requires LogicalLaunch(StartAgent(Some(prompt), mode, session), config, ctx).Some?
    ensures var l := LogicalLaunch(StartAgent(Some(prompt), mode, session), config, ctx).value;
            var base := LaunchTokenizer.Parse(config.launchCmd).value[1..];
            var rest := ModeFlags(mode, config, ctx, base) + SessionArgs(config.id, session);
            var own := config.builtin && (config.id == "gemini" || config.id == "pi");
            l.stdin.None? ==>
              l.args == if config.builtin && config.id == "pi" then base + rest + [prompt]
                        else if !own && config.promptMode == FlagPrompt then base + ["--prompt", prompt] + rest
                        else if !own && config.promptMode == FlagInteractive then
                          base + [if config.promptFlag.Some? then config.promptFlag.value else "--interactive", prompt] + rest
                        else if config.separator != "" then base + rest + [config.separator, prompt]
                        else base + [prompt] + rest
  {
    hide LaunchTokenizer.Parse, ModeFlags, SessionArgs;
    var base := LaunchTokenizer.Parse(config.launchCmd).value[1..];
    Placed(prompt, LogicalLaunch(StartAgent(Some(prompt), mode, session), config, ctx).value.executable,
           base, ModeFlags(mode, config, ctx, base), SessionArgs(config.id, session), config);
  }

  lemma Placed(prompt: string, exe: string, base: seq<string>, flags: seq<string>, session: seq<string>, config: Config)
    ensures var l, rest := StartLaunch(exe, base, flags, session, config, Some(prompt)), flags + session;
            var own := config.builtin && (config.id == "gemini" || config.id == "pi");
            l.stdin.None? ==>
              l.args == if config.builtin && config.id == "pi" then base + rest + [prompt]
                        else if !own && config.promptMode == FlagPrompt then base + ["--prompt", prompt] + rest
                        else if !own && config.promptMode == FlagInteractive then
                          base + [if config.promptFlag.Some? then config.promptFlag.value else "--interactive", prompt] + rest
                        else if config.separator != "" then base + rest + [config.separator, prompt]
                        else base + [prompt] + rest
  {
    assert base + flags + session == base + (flags + session);
    forall a: seq<string> ensures base + a + flags + session == base + a + (flags + session) {}
  }

  /** A native argument line is refused exactly when program, line and the space and quote between them are too long. */
  lemma NativeFitsExactlyWhen(l: Logical)
    ensures NativeLine(l).Some? <==> |l.executable| + |WindowsArgv.Line(l.args)| + 2 <= 32_700
  {
  }
}
