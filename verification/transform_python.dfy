/**
 * The Python transformation module (the earlier revision of the Python
 * module). A single map holds each step's arguments and the sending half of
 * its channel; step_init spawns the worker thread at once.
 */
module TransformPython {
  import opened Wrappers
  import opened Typedefs
  import opened Params
  import opened Metadata
  import opened PyRecords
  import opened Runner
  import PyEnv

  /** A step's entry in `MODULE_INIT_ARGS`: its arguments and what was sent on its channel, in order. */
  datatype StepAttributes = StepAttributes(args: ConfigureArgs, queue: seq<Record>)

  datatype State = State(steps: map<Handle, StepAttributes>, threads: map<Handle, Routine>)

  const Initial: State := State(map[], map[])

  /**
   * step_init: refused, with the handle of the step already registered, when
   * there is one; otherwise the worker for the step's kind is spawned with
   * `code_contents` (empty when not set) and the step is registered.
   */
  ghost function StepInit(s: State, a: ConfigureArgs, store: ParamStore): (r: (State, ConfigureResult))
    ensures |s.steps| > 0 ==> r.0 == s && r.1.ErrorMultipleStepsNotSupported? && r.1.conflict in s.steps
    ensures |s.steps| == 0 ==>
              && r.1 == ConfigureOk
              && r.0.steps == map[a.stepHandle := StepAttributes(a, [])]
              && a.stepHandle in r.0.threads
              && r.0.threads[a.stepHandle].code == GetParam(store, a.stepHandle, "code_contents").GetOr("")
              && (r.0.threads[a.stepHandle].SenderRoutine? <==> a.kind == Source)
  {
    if |s.steps| > 0 then (s, ErrorMultipleStepsNotSupported(FirstKey(s.steps)))
    else
      var code := GetParam(store, a.stepHandle, "code_contents").GetOr("");
      (State(s.steps[a.stepHandle := StepAttributes(a, [])],
             s.threads[a.stepHandle := RoutineFor(a.kind, code)]), ConfigureOk)
  }

  /** One more step_init keeps at most one step registered. */
  lemma StepInitSingleInstance(s: State, a: ConfigureArgs, store: ParamStore)
    requires |s.steps| <= 1
    ensures |StepInit(s, a, store).0.steps| <= 1
  {
  }

  /**
   * process_record: the record is appended to the step's channel, or
   * dropped for an unknown handle; the result is `None` in both cases.
   */
  function ProcessRecord(s: State, rec: Record, h: Handle): (r: (State, ProcessResult))
    ensures r.1 == ProcessNone
    ensures h !in s.steps ==> r.0 == s
    ensures h in s.steps ==>
              && r.0.threads == s.threads
              && r.0.steps.Keys == s.steps.Keys
              && r.0.steps[h] == StepAttributes(s.steps[h].args, s.steps[h].queue + [rec])
              && forall h' :: h' in s.steps && h' != h ==> r.0.steps[h'] == s.steps[h']
  {
    if h !in s.steps then (s, ProcessNone)
    else
      var attrs := s.steps[h];
      (s.(steps := s.steps[h := attrs.(queue := attrs.queue + [rec])]), ProcessNone)
  }

  const UnknownStep: string := "called `Option::unwrap()` on a `None` value"

  /**
   * `torustiq_send`: the record goes to the step's delivery callback with
   * the same handle; an unknown handle panics.
   */
  function Send(s: State, p: PyRecord, h: Handle, order: seq<string>): (r: Call<(), Effect>)
    requires IsEnumeration(order, p.metadata.Keys)
    ensures h !in s.steps <==> r.Panics?
    ensures h in s.steps ==> r.result == Delivered(s.steps[h].args.onDataReceived, IntoRecord(p, order), h)
  {
    if h !in s.steps then Panics(UnknownStep)
    else Returns((), Delivered(s.steps[h].args.onDataReceived, IntoRecord(p, order), h))
  }

  const RunWarning: string := "Error on execution of 'run' Python function: "

  /**
   * The sender routine after `run(handle)` returns: a failed `run` is
   * logged first; then the step's termination callback is invoked with the
   * handle, and an unknown handle panics instead.
   */
  function SenderRoutineEnd(s: State, h: Handle, run: Outcome): (r: (seq<string>, Call<(), Effect>))
    ensures |r.0| == (if run.Failed? then 1 else 0)
    ensures run.Failed? ==> r.0[0] == RunWarning + run.message
    ensures h !in s.steps <==> r.1.Panics?
    ensures h in s.steps ==> r.1.result == Terminated(s.steps[h].args.onTerminate, h)
  {
    var warned := if run.Failed? then [RunWarning + run.message] else [];
    if h !in s.steps then (warned, Panics(UnknownStep))
    else (warned, Returns((), TerminateVia(s.steps[h].args, h)))
  }

  /**
   * The earlier and the later Python module log a failed `run` alike and
   * invoke the same termination callback for a step they both know.
   */
  lemma SenderRoutineEndAgrees(s: State, h: Handle, run: Outcome)
    requires h in s.steps
    ensures SenderRoutineEnd(s, h, run).0 == PyEnv.SenderRoutine(h, run, Some(s.steps[h].args)).log
    ensures [SenderRoutineEnd(s, h, run).1.result] == PyEnv.SenderRoutine(h, run, Some(s.steps[h].args)).effects
  {
  }

  /** The operations the host performs on the module. */
  datatype Op = OpInit(args: ConfigureArgs) | OpProcess(rec: Record, h: Handle)

  /** Performs `ops` in order. */
  ghost function Run(s: State, ops: seq<Op>, store: ParamStore): State
    decreases |ops|
  {
    if |ops| == 0 then s
    else
      match ops[0]
      case OpInit(a) => Run(StepInit(s, a, store).0, ops[1..], store)
      case OpProcess(rec, h) => Run(ProcessRecord(s, rec, h).0, ops[1..], store)
  }

  /**
   * Whatever the host does, at most one step stays registered, and a
   * registered step keeps its arguments (hence its callbacks) while its
   * queue only grows at the end.
   */
  lemma {:induction false} RunKeepsSingleStep(s: State, ops: seq<Op>, store: ParamStore)
    requires |s.steps| <= 1
    ensures |Run(s, ops, store).steps| <= 1
    ensures forall h :: h in s.steps ==>
              && h in Run(s, ops, store).steps
              && Run(s, ops, store).steps[h].args == s.steps[h].args
              && s.steps[h].queue <= Run(s, ops, store).steps[h].queue
    decreases |ops|
  {
    if |ops| > 0 {
      match ops[0]
      case OpInit(a) =>
        var s' := StepInit(s, a, store).0;
        RunKeepsSingleStep(s', ops[1..], store);
      case OpProcess(rec, h) =>
        var s' := ProcessRecord(s, rec, h).0;
        assert s'.steps.Keys == s.steps.Keys;
        RunKeepsSingleStep(s', ops[1..], store);
    }
  }

  /** Starting from the empty registry, no sequence of operations registers two steps. */
  lemma ReachableSingleStep(ops: seq<Op>, store: ParamStore)
    ensures |Run(Initial, ops, store).steps| <= 1
  {
    RunKeepsSingleStep(Initial, ops, store);
  }

  /** Records handed one after another to a registered step queue up in the order they were handed. */
  lemma {:induction false} ProcessFifo(s: State, h: Handle, recs: seq<Record>, store: ParamStore)
    requires h in s.steps
    ensures var ops := seq(|recs|, i requires 0 <= i < |recs| => OpProcess(recs[i], h));
            && h in Run(s, ops, store).steps
            && Run(s, ops, store).steps[h].queue == s.steps[h].queue + recs
    decreases |recs|
  {
    var ops := seq(|recs|, i requires 0 <= i < |recs| => OpProcess(recs[i], h));
    if |recs| > 0 {
      var s' := ProcessRecord(s, recs[0], h).0;
      ProcessFifo(s', h, recs[1..], store);
      assert ops[1..] == seq(|recs[1..]|, i requires 0 <= i < |recs[1..]| => OpProcess(recs[1..][i], h));
      assert s.steps[h].queue + [recs[0]] + recs[1..] == s.steps[h].queue + recs;
    } else {
      assert s.steps[h].queue + recs == s.steps[h].queue;
    }
  }

  /**
   * Once a step is initialised, and whatever the host does afterwards, a
   * record sent from Python goes to that step's delivery callback, and the
   * sender routine ends with that step's termination callback.
   */
  lemma InitThenCallbacks(a: ConfigureArgs, store: ParamStore, ops: seq<Op>, p: PyRecord, order: seq<string>, run: Outcome)
    requires IsEnumeration(order, p.metadata.Keys)
    ensures var s := Run(StepInit(Initial, a, store).0, ops, store);
            && Send(s, p, a.stepHandle, order) == Returns((), Delivered(a.onDataReceived, IntoRecord(p, order), a.stepHandle))
            && SenderRoutineEnd(s, a.stepHandle, run).1 == Returns((), Terminated(a.onTerminate, a.stepHandle))
            && forall h :: h != a.stepHandle ==> Send(s, p, h, order).Panics?
  {
    var s0 := StepInit(Initial, a, store).0;
    assert s0.steps.Keys == {a.stepHandle};
    RunKeepsSingleStep(s0, ops, store);
    var s := Run(s0, ops, store);
    assert a.stepHandle in s.steps;
    forall h | h != a.stepHandle
      ensures h !in s.steps
    {
      if h in s.steps {
        AtMostOneKey(s.steps, h, a.stepHandle);
      }
    }
  }

  /**
   * The receiver routine: every received record is converted and passed to
   * `process` exactly once, in receive order; a timeout passes nothing; a
   * failing `process` is logged and the loop goes on.
   */
  method ReceiverRoutine(events: seq<InEvent>, outcome: nat -> Outcome) returns (calls: seq<PyRecord>, warnings: seq<string>)
    ensures |calls| == |ReceivedRecords(events)|
    ensures forall i :: 0 <= i < |calls| ==> calls[i] == FromRecord(ReceivedRecords(events)[i])
    ensures warnings == Prefixed("Error: ", ErrorLog(outcome, |calls|))
  {
    var processed, errors := Drain(events, outcome);
    calls := seq(|processed|, i requires 0 <= i < |processed| => FromRecord(processed[i]));
    warnings := Prefixed("Error: ", errors);
  }
}
