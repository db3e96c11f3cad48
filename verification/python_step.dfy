/**
 * The Python module's step registry. Because the process has a single
 * Python interpreter, the module accepts one step only. Configure registers
 * a channel for the step (its sending half in `SENDERS`, its receiving half
 * in `RECEIVERS`); start claims the receiving half, picks the code and
 * spawns the worker thread; process_record enqueues on the step's channel.
 */
module PythonStep {
  import opened Wrappers
  import opened Typedefs
  import opened Strings
  import opened Params
  import opened Runner

  datatype State = State(
    senders: map<Handle, seq<Record>>,    // SENDERS, with what was sent on each channel, in order
    receivers: set<Handle>,               // RECEIVERS: receiving halves not yet claimed
    configs: map<Handle, ConfigureArgs>,  // the host-side step configuration store
    threads: map<Handle, Routine>)        // spawned workers; each owns its step's receiving half

  const Initial: State := State(map[], {}, map[], map[])

  /** The registry invariant: at most one step, fully registered under its own handle. */
  ghost predicate Valid(s: State) {
    && |s.senders| <= 1
    && s.configs.Keys == s.senders.Keys
    && (forall h :: h in s.configs ==> s.configs[h].stepHandle == h)
    && s.receivers <= s.senders.Keys
    && s.threads.Keys <= s.senders.Keys
  }

  /**
   * Configure: refused, with the handle of the step already registered, when
   * there is one; otherwise the step gets a sender, a receiver and its stored
   * configuration.
   */
  ghost function Configure(s: State, a: ConfigureArgs): (r: (State, ConfigureResult))
    ensures |s.senders| > 0 ==> r.0 == s && r.1.ErrorMultipleStepsNotSupported? && r.1.conflict in s.senders
    ensures |s.senders| == 0 ==>
              && r.1 == ConfigureOk
              && r.0.senders == map[a.stepHandle := []]
              && r.0.receivers == s.receivers + {a.stepHandle}
              && r.0.configs == s.configs[a.stepHandle := a]
              && r.0.threads == s.threads
  {
    if |s.senders| > 0 then (s, ErrorMultipleStepsNotSupported(FirstKey(s.senders)))
    else
      (State(s.senders[a.stepHandle := []], s.receivers + {a.stepHandle},
             s.configs[a.stepHandle := a], s.threads), ConfigureOk)
  }

  /** In a valid registry the conflicting handle reported is that of the registered step. */
  lemma ConfigureReportsRegisteredStep(s: State, a: ConfigureArgs, h: Handle)
    requires Valid(s) && h in s.senders
    ensures Configure(s, a) == (s, ErrorMultipleStepsNotSupported(h))
  {
    AtMostOneKey(s.senders, h, FirstKey(s.senders));
  }

  function NoConfiguration(h: Handle): string {
    "Step '" + NatToDecimal(h) + "' has no registered configuration"
  }

  function NoReceiver(h: Handle): string {
    "Step  '" + NatToDecimal(h) + "' has no registered receiver"
  }

  const NoCode: string := "Either 'file' or 'code_contents' attribute must be provided for Python handler"

  function UnreadableFile(path: string, e: string): string {
    "Failed to read contents of Python file '" + path + "': " + e
  }

  /**
   * The code a step runs: the contents of the `file` parameter if it is set
   * (an unreadable file is an error), else `code_contents`, else an error.
   */
  function CodeFor(store: ParamStore, h: Handle, readFile: string -> Result<string, string>): (r: Result<string, string>)
    ensures GetParam(store, h, "file").Some? ==>
              var path := GetParam(store, h, "file").value;
              match readFile(path)
              case Ok(code) => r == Ok(code)
              case Err(e) => r == Err(UnreadableFile(path, e))
    ensures GetParam(store, h, "file").None? ==>
              match GetParam(store, h, "code_contents")
              case Some(code) => r == Ok(code)
              case None => r == Err(NoCode)
  {
    match GetParam(store, h, "file")
    case Some(path) =>
      (match readFile(path)
       case Ok(code) => Ok(code)
       case Err(e) => Err(UnreadableFile(path, e)))
    case None =>
      (match GetParam(store, h, "code_contents")
       case Some(code) => Ok(code)
       case None => Err(NoCode))
  }

  /**
   * Start: the configuration must exist; the receiving half is then removed
   * from `RECEIVERS` (it must be there) before the code is looked up, so a
   * start that fails for lack of code still consumes it. On success the
   * worker for the step's kind is spawned.
   */
  function Start(s: State, h: Handle, store: ParamStore, readFile: string -> Result<string, string>)
    : (r: (State, StartResult))
    ensures h !in s.configs ==> r == (s, StartErrorMisc(NoConfiguration(h)))
    ensures h in s.configs && h !in s.receivers ==> r == (s, StartErrorMisc(NoReceiver(h)))
    ensures h in s.configs && h in s.receivers ==>
              && r.0.receivers == s.receivers - {h}
              && r.0.senders == s.senders && r.0.configs == s.configs
              && var cfg := s.configs[h];
                 match CodeFor(store, cfg.stepHandle, readFile)
                 case Err(e) => r.1 == StartErrorMisc(e) && r.0.threads == s.threads
                 case Ok(code) => r.1 == StartOk && r.0.threads == s.threads[cfg.stepHandle := RoutineFor(cfg.kind, code)]
  {
    if h !in s.configs then (s, StartErrorMisc(NoConfiguration(h)))
    else if h !in s.receivers then (s, StartErrorMisc(NoReceiver(h)))
    else
      var cfg := s.configs[h];
      var claimed := s.(receivers := s.receivers - {h});
      match CodeFor(store, cfg.stepHandle, readFile)
      case Err(e) => (claimed, StartErrorMisc(e))
      case Ok(code) => (claimed.(threads := s.threads[cfg.stepHandle := RoutineFor(cfg.kind, code)]), StartOk)
  }

  /** Whatever the first start of a configured step did, a second one fails for want of a receiver. */
  lemma SecondStartFails(s: State, h: Handle, store: ParamStore, readFile: string -> Result<string, string>)
    requires h in s.configs && h in s.receivers
    ensures var s1 := Start(s, h, store, readFile).0;
            Start(s1, h, store, readFile) == (s1, StartErrorMisc(NoReceiver(h)))
  {
  }

  /** A `file` parameter takes precedence over `code_contents`. */
  lemma FileTakesPrecedence(store: ParamStore, h: Handle, readFile: string -> Result<string, string>)
    requires GetParam(store, h, "file").Some? && GetParam(store, h, "code_contents").Some?
    ensures CodeFor(store, h, readFile).Ok? ==>
              CodeFor(store, h, readFile).value == readFile(GetParam(store, h, "file").value).value
  {
  }

  const ClosedChannel: string := "sending on a closed channel"

  /**
   * process_record: a record for an unknown handle is dropped with success;
   * for the registered step it is appended to the step's channel. Sending
   * panics once the receiving half is gone (claimed by a start that then failed).
   */
  function ProcessRecord(s: State, rec: Record, h: Handle): (r: Call<State, ProcessResult>)
    ensures h !in s.senders ==> r == Returns(s, ProcessOk)
    ensures h in s.senders && (h in s.receivers || h in s.threads) ==>
              r == Returns(s.(senders := s.senders[h := s.senders[h] + [rec]]), ProcessOk)
    ensures h in s.senders && h !in s.receivers && h !in s.threads ==> r.Panics?
  {
    if h !in s.senders then Returns(s, ProcessOk)
    else if h !in s.receivers && h !in s.threads then Panics(ClosedChannel)
    else Returns(s.(senders := s.senders[h := s.senders[h] + [rec]]), ProcessOk)
  }

  /** The operations the host performs on the module. */
  datatype Op = OpConfigure(args: ConfigureArgs) | OpStart(h: Handle) | OpProcess(rec: Record, h: Handle)

  /** Performs `ops` in order; a panic ends the process, leaving the state it had. */
  ghost function Run(s: State, ops: seq<Op>, store: ParamStore, readFile: string -> Result<string, string>): State
    decreases |ops|
  {
    if |ops| == 0 then s
    else
      match ops[0]
      case OpConfigure(a) => Run(Configure(s, a).0, ops[1..], store, readFile)
      case OpStart(h) => Run(Start(s, h, store, readFile).0, ops[1..], store, readFile)
      case OpProcess(rec, h) =>
        (match ProcessRecord(s, rec, h)
         case Returns(s', _) => Run(s', ops[1..], store, readFile)
         case Panics(_) => s)
  }

  lemma ConfigureKeepsValid(s: State, a: ConfigureArgs)
    requires Valid(s)
    ensures Valid(Configure(s, a).0)
  {
  }

  lemma StartKeepsValid(s: State, h: Handle, store: ParamStore, readFile: string -> Result<string, string>)
    requires Valid(s)
    ensures Valid(Start(s, h, store, readFile).0)
  {
  }

  lemma ProcessKeepsValid(s: State, rec: Record, h: Handle)
    requires Valid(s)
    ensures ProcessRecord(s, rec, h).Returns? ==> Valid(ProcessRecord(s, rec, h).state)
  {
  }

  /** Every state the module can reach has at most one step registered. */
  lemma {:induction false} RunKeepsValid(s: State, ops: seq<Op>, store: ParamStore, readFile: string -> Result<string, string>)
    requires Valid(s)
    ensures Valid(Run(s, ops, store, readFile))
    ensures |Run(s, ops, store, readFile).senders| <= 1
    decreases |ops|
  {
    if |ops| > 0 {
      match ops[0]
      case OpConfigure(a) =>
        ConfigureKeepsValid(s, a);
        RunKeepsValid(Configure(s, a).0, ops[1..], store, readFile);
      case OpStart(h) =>
        StartKeepsValid(s, h, store, readFile);
        RunKeepsValid(Start(s, h, store, readFile).0, ops[1..], store, readFile);
      case OpProcess(rec, h) =>
        ProcessKeepsValid(s, rec, h);
        match ProcessRecord(s, rec, h)
        case Returns(s', _) => RunKeepsValid(s', ops[1..], store, readFile);
        case Panics(_) =>
    }
  }

  /** The initial registry is valid, hence so is every reachable one. */
  lemma ReachableValid(ops: seq<Op>, store: ParamStore, readFile: string -> Result<string, string>)
    ensures Valid(Run(Initial, ops, store, readFile))
  {
    RunKeepsValid(Initial, ops, store, readFile);
  }

  /** Records sent one after another to the registered step queue up in sending order. */
  lemma {:induction false} ProcessFifo(s: State, h: Handle, recs: seq<Record>,
                                      store: ParamStore, readFile: string -> Result<string, string>)
    requires h in s.senders && (h in s.receivers || h in s.threads)
    ensures var ops := seq(|recs|, i requires 0 <= i < |recs| => OpProcess(recs[i], h));
            && h in Run(s, ops, store, readFile).senders
            && Run(s, ops, store, readFile).senders[h] == s.senders[h] + recs
    decreases |recs|
  {
    var ops := seq(|recs|, i requires 0 <= i < |recs| => OpProcess(recs[i], h));
    if |recs| > 0 {
      var s' := s.(senders := s.senders[h := s.senders[h] + [recs[0]]]);
      ProcessFifo(s', h, recs[1..], store, readFile);
      assert ops[1..] == seq(|recs[1..]|, i requires 0 <= i < |recs[1..]| => OpProcess(recs[1..][i], h));
      assert s.senders[h] + [recs[0]] + recs[1..] == s.senders[h] + recs;
    } else {
      assert s.senders[h] + recs == s.senders[h];
    }
  }
}
