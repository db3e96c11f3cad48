/**
 * The Lua module. Configure stores the arguments of a source step; start
 * spawns a thread that runs the step's Lua code followed by a launcher
 * calling `run(handle)` and then terminates the step. A processor routine
 * for transformation and destination steps drives the Lua `process`
 * function over the records received. Printing records is in `Render`.
 * The Lua interpreter is a parameter: whether the environment could be
 * created, whether the code compiled or ran, and its verdict per record.
 */
module Lua {
  import opened Wrappers
  import opened Typedefs
  import opened Strings
  import opened Params
  import opened Runner

  /** The step configurations stored with the host (`set_step_configuration`). */
  datatype State = State(configs: map<Handle, ConfigureArgs>)

  const Initial: State := State(map[])

  /** Every stored configuration is the one of its own handle and of a source step. */
  ghost predicate Valid(s: State) {
    forall h :: h in s.configs ==> s.configs[h].stepHandle == h && s.configs[h].kind == Source
  }

  /** Only a source step can be configured; its arguments are then stored under its handle. */
  function Configure(s: State, a: ConfigureArgs): (r: (State, ConfigureResult))
    ensures a.kind == Source ==> r == (State(s.configs[a.stepHandle := a]), ConfigureOk)
    ensures a.kind != Source ==> r == (s, ErrorKindNotSupported)
  {
    match a.kind
    case Source => (State(s.configs[a.stepHandle := a]), ConfigureOk)
    case _ => (s, ErrorKindNotSupported)
  }

  lemma ConfigureKeepsValid(s: State, a: ConfigureArgs)
    requires Valid(s)
    ensures Valid(Configure(s, a).0)
  {
  }

  function NotFound(h: Handle): string {
    "Init args for step '" + NatToDecimal(h) + "' not found"
  }

  function NotSource(h: Handle): string {
    "Step '" + NatToDecimal(h) + "' must be source"
  }

  /** The outcome of start, and the configuration of the source thread it spawned, if any. */
  datatype Started = Started(result: StartResult, spawned: Option<ConfigureArgs>)

  function Start(s: State, h: Handle): (r: Started)
    ensures h !in s.configs ==> r == Started(StartErrorMisc(NotFound(h)), None)
    ensures h in s.configs && s.configs[h].kind == Source ==> r == Started(StartOk, Some(s.configs[h]))
    ensures h in s.configs && s.configs[h].kind != Source ==> r == Started(StartErrorMisc(NotSource(h)), None)
  {
    if h !in s.configs then Started(StartErrorMisc(NotFound(h)), None)
    else
      var args := s.configs[h];
      match args.kind
      case Source => Started(StartOk, Some(args))
      case _ => Started(StartErrorMisc(NotSource(h)), None)
  }

  /** In a valid state, start succeeds exactly for the configured handles: the must-be-source error cannot occur. */
  lemma StartSucceedsIffConfigured(s: State, h: Handle)
    requires Valid(s)
    ensures Start(s, h).result == StartOk <==> h in s.configs
    ensures Start(s, h).result != StartOk ==> Start(s, h).result == StartErrorMisc(NotFound(h))
  {
  }

  /** A configured source step can be started; an unconfigured handle cannot. */
  lemma ConfigureThenStart(s: State, a: ConfigureArgs)
    ensures Configure(s, a).1 == ConfigureOk ==> Start(Configure(s, a).0, a.stepHandle) == Started(StartOk, Some(a))
    ensures Configure(s, a).1 != ConfigureOk && a.stepHandle !in s.configs ==>
              Start(Configure(s, a).0, a.stepHandle).result == StartErrorMisc(NotFound(a.stepHandle))
  {
  }

  /** The step's code followed by the launcher line. */
  function LauncherCode(code: string, h: Handle): string {
    code + "\nrun(" + NatToDecimal(h) + ")"
  }

  /**
   * The launcher keeps the step's code in front and calls `run` with a
   * decimal literal that denotes the step's own handle.
   */
  lemma LauncherCallsRunWithHandle(code: string, h: Handle)
    ensures exists digits ::
              && LauncherCode(code, h) == code + "\nrun(" + digits + ")"
              && ParseU32(digits) == Some(h)
  {
    ParseU32OfDecimal(h);
    assert LauncherCode(code, h) == code + "\nrun(" + NatToDecimal(h) + ")";
  }

  function EnvFailed(h: Handle, e: string): string {
    "Failed to create a Lua env in step '" + NatToDecimal(h) + "': " + e
  }

  /** What a source routine did: the code it handed to the interpreter, if any, and its trace. */
  datatype SourceRun = SourceRun(executed: Option<string>, trace: Trace)

  /**
   * The thread spawned by start for a source step. Whether the Lua
   * environment could be created (`env`) and how the launcher code ran
   * (`exec`, the result of `exec_code`) are parameters; failures are logged.
   * Without an environment no code runs; otherwise the step's code
   * (`code_contents`, empty when not set) is run with the launcher line. In
   * every case the step's termination callback is invoked exactly once.
   */
  function SourceRoutine(args: ConfigureArgs, h: Handle, store: ParamStore, env: Result<(), string>, exec: Outcome)
    : (r: SourceRun)
    ensures r.trace.effects == [TerminateVia(args, args.stepHandle)]
    ensures Terminations(r.trace.effects) == 1
    ensures env.Err? ==> r.executed.None? && r.trace.log == [EnvFailed(h, env.error)]
    ensures env.Ok? ==> r.executed == Some(LauncherCode(GetParam(store, h, "code_contents").GetOr(""), h))
    ensures env.Ok? ==> (|r.trace.log| == 1 <==> exec.Failed?) && |r.trace.log| <= 1
    ensures env.Ok? && exec.Failed? ==> r.trace.log == ["An error occurred in Lua code: " + exec.message]
  {
    match env
    case Err(e) => SourceRun(None, Trace([TerminateVia(args, args.stepHandle)], [EnvFailed(h, e)]))
    case Ok(_) =>
      var code := GetParam(store, h, "code_contents").GetOr("");
      var log := if exec.Failed? then ["An error occurred in Lua code: " + exec.message] else [];
      SourceRun(Some(LauncherCode(code, h)), Trace([TerminateVia(args, args.stepHandle)], log))
  }

  /**
   * `thread_source` of the thread module: the same routine over the code it
   * is given, terminating through the termination callback it is given.
   */
  function ThreadSource(onTerminate: CallbackId, h: Handle, code: string, env: Result<(), string>, exec: Outcome)
    : (r: SourceRun)
    ensures r.trace.effects == [Terminated(onTerminate, h)]
    ensures Terminations(r.trace.effects) == 1
    ensures env.Err? ==> r.executed.None? && r.trace.log == [EnvFailed(h, env.error)]
    ensures env.Ok? ==> r.executed == Some(LauncherCode(code, h))
    ensures env.Ok? ==> (|r.trace.log| == 1 <==> exec.Failed?) && |r.trace.log| <= 1
    ensures env.Ok? && exec.Failed? ==> r.trace.log == ["An error occurred in Lua sender code: " + exec.message]
  {
    match env
    case Err(e) => SourceRun(None, Trace([Terminated(onTerminate, h)], [EnvFailed(h, e)]))
    case Ok(_) =>
      var log := if exec.Failed? then ["An error occurred in Lua sender code: " + exec.message] else [];
      SourceRun(Some(LauncherCode(code, h)), Trace([Terminated(onTerminate, h)], log))
  }

  function NoReceiver(h: Handle): string {
    "Record receiver is not registered for step '" + NatToDecimal(h) + "'"
  }

  function NoFunction(h: Handle, e: string): string {
    "Failed to create a Lua function in step '" + NatToDecimal(h) + "': " + e
  }

  /** Whether the processor's three set-up steps all succeed. */
  predicate SetupSucceeds(h: Handle, env: Result<(), string>, receivers: set<Handle>, compiled: Result<(), string>) {
    env.Ok? && h in receivers && compiled.Ok?
  }

  /**
   * The processor thread of a transformation or destination step. Set-up
   * runs in order: the Lua environment, claiming the step's record
   * receiver from the registered ones, compiling the step's code into the
   * processing function. The first failure is logged, the step is terminated
   * and nothing is processed. Otherwise every received record is passed to
   * the function exactly once, in order; failures are logged and the loop
   * goes on, and the step is never terminated.
   */
  method Processor(onTerminate: CallbackId, h: Handle, env: Result<(), string>, receivers: set<Handle>,
                   compiled: Result<(), string>, events: seq<InEvent>, outcome: nat -> Outcome)
    returns (t: Trace, processed: seq<Record>)
    ensures !SetupSucceeds(h, env, receivers, compiled) <==> t.effects == [Terminated(onTerminate, h)]
    ensures SetupSucceeds(h, env, receivers, compiled) <==> t.effects == []
    ensures !SetupSucceeds(h, env, receivers, compiled) ==> processed == [] && |t.log| == 1
    ensures env.Err? ==> t.log == [EnvFailed(h, env.error)]
    ensures env.Ok? && h !in receivers ==> t.log == [NoReceiver(h)]
    ensures env.Ok? && h in receivers && compiled.Err? ==> t.log == [NoFunction(h, compiled.error)]
    ensures SetupSucceeds(h, env, receivers, compiled) ==>
              processed == ReceivedRecords(events) && t.log == Prefixed("ERROR: ", ErrorLog(outcome, |processed|))
  {
    processed := [];
    if env.Err? {
      t := Trace([Terminated(onTerminate, h)], [EnvFailed(h, env.error)]);
      return;
    }
    if h !in receivers {
      t := Trace([Terminated(onTerminate, h)], [NoReceiver(h)]);
      return;
    }
    if compiled.Err? {
      t := Trace([Terminated(onTerminate, h)], [NoFunction(h, compiled.error)]);
      return;
    }
    var errors;
    processed, errors := Drain(events, outcome);
    t := Trace([], Prefixed("ERROR: ", errors));
  }
}
