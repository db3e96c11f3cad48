/**
 * The stdio module. As a source it spawns a reader that delivers every line
 * of standard input as a record and then terminates the step; as a
 * destination it prints records (see `Render`); it is no transformation.
 * Standard input is a parameter: the finite sequence of line reads.
 */
module Stdio {
  import opened Wrappers
  import opened Typedefs

  /** One read from standard input: a line's bytes without the terminator, or a read error. */
  datatype LineRead = Line(bytes: seq<Byte>) | ReadError(message: string)

  /** The outcome of configure, and the arguments captured by the line reader it spawned, if any. */
  datatype Configured = Configured(result: ConfigureResult, reader: Option<ConfigureArgs>)

  function Configure(a: ConfigureArgs): (r: Configured)
    ensures r.result == ConfigureOk <==> a.kind != Transformation
    ensures r.result != ConfigureOk ==> r.result == ErrorKindNotSupported
    ensures r.reader.Some? <==> a.kind == Source
    ensures r.reader.Some? ==> r.reader.value == a
  {
    match a.kind
    case Source => Configured(ConfigureOk, Some(a))
    case Destination => Configured(ConfigureOk, None)
    case Transformation => Configured(ErrorKindNotSupported, None)
  }

  /** The lines read before the first read error (all of them when there is none). */
  function LinesBeforeError(input: seq<LineRead>): (lines: seq<seq<Byte>>)
    ensures |lines| <= |input|
    ensures forall i :: 0 <= i < |lines| ==> input[i] == Line(lines[i])
    ensures |lines| < |input| ==> input[|lines|].ReadError?
    decreases |input|
  {
    if |input| == 0 || input[0].ReadError? then []
    else [input[0].bytes] + LinesBeforeError(input[1..])
  }

  /** A record with the line as its content and no metadata, delivered under the step's own handle. */
  function Deliver(a: ConfigureArgs, line: seq<Byte>): Effect {
    Delivered(a.onDataReceived, Record(line, []), a.stepHandle)
  }

  /** What the reader thread does, declaratively: every line delivered in order, then one termination. */
  function ReaderEffects(a: ConfigureArgs, input: seq<LineRead>): seq<Effect> {
    var lines := LinesBeforeError(input);
    seq(|lines|, i requires 0 <= i < |lines| => Deliver(a, lines[i])) + [TerminateVia(a, a.stepHandle)]
  }

  /**
   * A configured source's reader delivers each line, with no metadata, to the
   * callback it was configured with and under its own handle, and then
   * invokes its own termination callback with that handle.
   */
  lemma ConfigureThenRead(a: ConfigureArgs, input: seq<LineRead>)
    requires a.kind == Source
    ensures Configure(a).result == ConfigureOk && Configure(a).reader == Some(a)
    ensures var effects := ReaderEffects(Configure(a).reader.value, input);
            && (forall i :: 0 <= i < |effects| ==> effects[i].h == a.stepHandle)
            && (forall i :: 0 <= i < |effects| - 1 ==>
                  effects[i] == Delivered(a.onDataReceived, Record(LinesBeforeError(input)[i], []), a.stepHandle))
            && effects[|effects| - 1] == Terminated(a.onTerminate, a.stepHandle)
  {
  }

  /**
   * The reader thread: for each read in order, a line is delivered and a
   * read error is logged and ends the loop; the step is then terminated,
   * exactly once.
   */
  method ReadLines(a: ConfigureArgs, input: seq<LineRead>) returns (effects: seq<Effect>, errors: seq<string>)
    ensures |effects| == |LinesBeforeError(input)| + 1
    ensures forall i :: 0 <= i < |LinesBeforeError(input)| ==> effects[i] == Deliver(a, LinesBeforeError(input)[i])
    ensures effects == ReaderEffects(a, input)
    ensures effects[|effects| - 1] == TerminateVia(a, a.stepHandle)
    ensures Terminations(effects) == 1
    ensures |errors| <= 1
    ensures |errors| == 1 <==> |LinesBeforeError(input)| < |input|
  {
    effects := [];
    errors := [];
    var i := 0;
    while i < |input|
      invariant i <= |input|
      invariant |errors| <= 1
      invariant |errors| == 0 ==> i <= |LinesBeforeError(input)|
      invariant |errors| == 1 ==> i == |LinesBeforeError(input)| < |input|
      invariant |effects| == i
      invariant forall k :: 0 <= k < i ==> effects[k] == Deliver(a, LinesBeforeError(input)[k])
      invariant Terminations(effects) == 0
      decreases |input| - i, 1 - |errors|
    {
      match input[i] {
        case ReadError(e) =>
          errors := ["Error on reading a line: " + e];
          break;
        case Line(bytes) =>
          LinesPrefix(input, i);
          TerminationsSnoc(effects, Deliver(a, bytes));
          effects := effects + [Deliver(a, bytes)];
          i := i + 1;
      }
    }
    if |errors| == 0 {
      LinesPrefix(input, i);
    }
    TerminationsSnoc(effects, TerminateVia(a, a.stepHandle));
    effects := effects + [TerminateVia(a, a.stepHandle)];
  }

  /** Reading position `i` as a line, with every earlier read a line, extends the lines before the error. */
  lemma {:induction false} LinesPrefix(input: seq<LineRead>, i: nat)
    requires i <= |input|
    requires forall k :: 0 <= k < i ==> input[k].Line?
    ensures i <= |LinesBeforeError(input)|
    ensures i < |input| && input[i].Line? ==> i < |LinesBeforeError(input)| && LinesBeforeError(input)[i] == input[i].bytes
    decreases i
  {
    if i > 0 {
      LinesPrefix(input[1..], i - 1);
    } else if |input| > 0 && input[0].Line? {
      assert LinesBeforeError(input) == [input[0].bytes] + LinesBeforeError(input[1..]);
    }
  }
}
