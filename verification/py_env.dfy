/**
 * The worker routines of the Python module, with the interpreter abstracted:
 * `torustiq_send` (called from Python code to deliver a record), the sender
 * routine run by a source step and the receiver routine run by every other step.
 */
module PyEnv {
  import opened Wrappers
  import opened Typedefs
  import opened Metadata
  import opened PyRecords
  import opened Strings
  import opened Runner

  /** The error logged by `torustiq_send` for a handle with no stored configuration. */
  function InvalidHandle(h: Handle): string {
    "torustiq_send: invalid step handle: " + NatToDecimal(h)
  }

  /**
   * `torustiq_send`: with no stored configuration for the handle nothing is
   * delivered and the invalid handle is logged; otherwise the step's
   * delivery callback is invoked once, with the converted record and the
   * same handle, and nothing is logged.
   */
  function Send(configs: map<Handle, ConfigureArgs>, p: PyRecord, h: Handle, order: seq<string>): (t: Trace)
    requires IsEnumeration(order, p.metadata.Keys)
    ensures h !in configs ==> t == Trace([], [InvalidHandle(h)])
    ensures h in configs ==> t == Trace([Delivered(configs[h].onDataReceived, IntoRecord(p, order), h)], [])
    ensures Terminations(t.effects) == 0
  {
    if h !in configs then Trace([], [InvalidHandle(h)])
    else Trace([Delivered(configs[h].onDataReceived, IntoRecord(p, order), h)], [])
  }

  /**
   * What a configured step delivers is, seen again from Python, the record
   * that was sent: the same content and the same metadata map.
   */
  lemma SendRoundTrip(configs: map<Handle, ConfigureArgs>, p: PyRecord, h: Handle, order: seq<string>)
    requires IsEnumeration(order, p.metadata.Keys)
    requires h in configs
    ensures |Send(configs, p, h, order).effects| == 1
    ensures Send(configs, p, h, order).effects[0].Delivered?
    ensures FromRecord(Send(configs, p, h, order).effects[0].record) == p
  {
    PyRecordRoundTrip(p, order);
  }

  /**
   * The sender routine, once Python's `run(handle)` has returned with
   * `run`: a failure is logged; the termination callback is then invoked
   * once with the handle, unless the configuration can no longer be found.
   */
  function SenderRoutine(h: Handle, run: Outcome, cfgAfterRun: Option<ConfigureArgs>): (t: Trace)
    ensures cfgAfterRun.Some? ==> t.effects == [Terminated(cfgAfterRun.value.onTerminate, h)]
    ensures cfgAfterRun.None? ==> t.effects == []
    ensures Terminations(t.effects) == (if cfgAfterRun.Some? then 1 else 0)
    ensures |t.log| == (if run.Failed? then 1 else 0) + (if cfgAfterRun.None? then 1 else 0)
    ensures run.Failed? ==> t.log[0] == "Error on execution of 'run' Python function: " + run.message
  {
    var warned := if run.Failed? then ["Error on execution of 'run' Python function: " + run.message] else [];
    match cfgAfterRun
    case Some(cfg) => Trace([TerminateVia(cfg, h)], warned)
    case None => Trace([], warned + ["Failed to load the step configuration for step '" + NatToDecimal(h) + "' in Python sender thread"])
  }

  /** Whether `run` succeeded or failed does not change which callbacks the sender routine invokes. */
  lemma SenderTerminationIgnoresRun(h: Handle, run1: Outcome, run2: Outcome, cfg: Option<ConfigureArgs>)
    ensures SenderRoutine(h, run1, cfg).effects == SenderRoutine(h, run2, cfg).effects
  {
  }

  /** The records as the Python `process` function sees them. */
  function AsPyRecords(recs: seq<Record>): (ps: seq<PyRecord>)
    ensures |ps| == |recs|
    ensures forall i :: 0 <= i < |recs| ==> ps[i] == FromRecord(recs[i])
  {
    seq(|recs|, i requires 0 <= i < |recs| => FromRecord(recs[i]))
  }

  /**
   * The receiver routine over the events seen so far: every received record
   * is converted and passed to `process` exactly once, in receive order; a
   * timeout passes nothing; a failing `process` is logged and the loop goes on.
   */
  method ReceiverRoutine(events: seq<InEvent>, outcome: nat -> Outcome) returns (calls: seq<PyRecord>, warnings: seq<string>)
    ensures calls == AsPyRecords(ReceivedRecords(events))
    ensures |warnings| <= |calls|
    ensures warnings == Prefixed("Error on execution of 'process' Python function: ", ErrorLog(outcome, |calls|))
  {
    var processed, errors := Drain(events, outcome);
    calls := AsPyRecords(processed);
    warnings := Prefixed("Error on execution of 'process' Python function: ", errors);
  }
}
