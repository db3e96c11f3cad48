/**
 * The data types shared by every pipeline module: records, step kinds, handles,
 * configure arguments and the tagged results of configure, start and process.
 * The callbacks the host hands to a module are opaque identifiers; invoking one
 * is recorded as an `Effect`, so a module's observable behaviour is the sequence
 * of effects it produces.
 */
module Typedefs {
  import opened Wrappers

  /** A step handle is a C `unsigned int` (32 bits). */
  const HandleBound: int := 0x1_0000_0000
  type Handle = h: int | 0 <= h < HandleBound

  type Byte = b: int | 0 <= b < 256

  /** The position of a step in the pipeline. */
  datatype StepKind =
    | Source          // produces data itself, receives nothing
    | Transformation  // receives from the previous step and forwards to the next
    | Destination     // receives, never forwards

  /** Whether a step of this kind takes records from a previous step. */
  predicate ReceivesInput(k: StepKind) { k != Source }

  /** Whether a step of this kind hands records on to a next step. */
  predicate Forwards(k: StepKind) { k != Destination }

  /** One metadata item: a name/value pair. */
  datatype MetaPair = MetaPair(name: string, value: string)

  /**
   * A record: a byte buffer plus an ordered array of name/value pairs.
   * Names need not be distinct. The buffer's length is the length of `content`.
   */
  datatype Record = Record(content: seq<Byte>, metadata: seq<MetaPair>)

  /** The opaque identity of a function pointer handed over by the host. */
  type CallbackId = nat

  /** Arguments of step configuration: kind, handle, termination and delivery callbacks. */
  datatype ConfigureArgs = ConfigureArgs(
    kind: StepKind,
    stepHandle: Handle,
    onTerminate: CallbackId,
    onDataReceived: CallbackId)

  /** An invocation of one of the host's callbacks. */
  datatype Effect =
    | Terminated(cb: CallbackId, h: Handle)
    | Delivered(cb: CallbackId, record: Record, h: Handle)

  /** The invocation of the termination callback of `args` with `h`. */
  function TerminateVia(args: ConfigureArgs, h: Handle): (e: Effect)
    ensures e.Terminated? && e.cb == args.onTerminate && e.h == h
  {
    Terminated(args.onTerminate, h)
  }

  /** The number of termination-callback invocations in a trace. */
  function Terminations(effects: seq<Effect>): (n: nat)
    ensures n <= |effects|
  {
    if |effects| == 0 then 0
    else (if effects[0].Terminated? then 1 else 0) + Terminations(effects[1..])
  }

  /** Appending an effect adds one to the count exactly when it is a termination. */
  lemma {:induction false} TerminationsSnoc(effects: seq<Effect>, e: Effect)
    ensures Terminations(effects + [e]) == Terminations(effects) + (if e.Terminated? then 1 else 0)
    decreases |effects|
  {
    if |effects| == 0 {
      assert [e][1..] == [];
    } else {
      assert (effects + [e])[1..] == effects[1..] + [e];
      TerminationsSnoc(effects[1..], e);
    }
  }

  /** The outcome of configuring a step. */
  datatype ConfigureResult =
    | ConfigureOk
    | ErrorKindNotSupported
    | ErrorMultipleStepsNotSupported(conflict: Handle)  // handle of the step already configured
    | ConfigureErrorMisc(message: string)

  /** The outcome of starting a step. */
  datatype StartResult = StartOk | StartErrorMisc(message: string)

  /**
   * The outcome of handing a record to a step. `ProcessErrUnset` is an error
   * whose message field is left uninitialised; `ProcessNone` is the result tag
   * of the module API revision used by the stdio, lua and python-transform modules.
   */
  datatype ProcessResult = ProcessOk | ProcessErr(message: string) | ProcessErrUnset | ProcessNone

  /**
   * The first key a `HashMap` yields when iterated (`keys().next()`). The
   * iteration order is unspecified, so this is some key of the map.
   */
  ghost function FirstKey<K, V>(m: map<K, V>): (k: K)
    requires |m| > 0
    ensures k in m
  {
    assert m.Keys != {};
    var k :| k in m.Keys; k
  }

  /** A map with at most one entry has one key only: the single-step registries rely on it. */
  lemma AtMostOneKey<K, V>(m: map<K, V>, h: K, k: K)
    requires |m| <= 1 && h in m && k in m
    ensures h == k
  {
    if h != k {
      TwoKeys(m, h, k);
    }
  }

  /** Two distinct keys make a map of at least two entries. */
  lemma TwoKeys<K, V>(m: map<K, V>, h: K, k: K)
    requires h in m && k in m && h != k
    ensures |m| >= 2
  {
    assert m.Keys == {h, k} + (m.Keys - {h, k});
  }

  /** A call that returns a new state and a result, or panics (a Rust `unwrap` on a failure). */
  datatype Call<S, R> = Returns(state: S, result: R) | Panics(reason: string)
}
