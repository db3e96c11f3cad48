/**
 * The receive loop shared by the stage runners (the Lua processor thread and
 * the two Python receiver threads). The channel and the interpreter are
 * replaced by oracles: the loop sees a finite sequence of events, each a
 * receive timeout or a received record, and the interpreter's verdict on the
 * k-th record it is handed is `outcome(k)`. The source loop never exits; the
 * model describes what it has done after the given events.
 */
module Runner {
  import opened Typedefs

  datatype InEvent = Timeout | Received(record: Record)

  /** The interpreter's verdict on one record. */
  datatype Outcome = Done | Failed(message: string)

  /** The code a spawned worker thread runs: `run` for a source, `process` per record otherwise. */
  datatype Routine = SenderRoutine(code: string) | ReceiverRoutine(code: string)

  /** What a routine leaves behind: the callbacks it invoked and the lines it logged. */
  datatype Trace = Trace(effects: seq<Effect>, log: seq<string>)

  /** A source step runs the sender routine; every other kind the receiver routine. */
  function RoutineFor(kind: StepKind, code: string): (r: Routine)
    ensures r.code == code
    ensures r.SenderRoutine? <==> !ReceivesInput(kind)
  {
    match kind
    case Source => SenderRoutine(code)
    case _ => ReceiverRoutine(code)
  }

  /** The records among the events, in receive order. */
  function ReceivedRecords(events: seq<InEvent>): seq<Record>
    decreases |events|
  {
    if |events| == 0 then []
    else (if events[0].Received? then [events[0].record] else []) + ReceivedRecords(events[1..])
  }

  /** The messages of the failed verdicts among the first `n`, in order. */
  function ErrorLog(outcome: nat -> Outcome, n: nat): (log: seq<string>)
    ensures |log| <= n
    decreases n
  {
    if n == 0 then []
    else ErrorLog(outcome, n - 1) + (if outcome(n - 1).Failed? then [outcome(n - 1).message] else [])
  }

  /** One more verdict adds its message to the end of the log exactly when it is a failure. */
  lemma ErrorLogSnoc(outcome: nat -> Outcome, n: nat)
    ensures ErrorLog(outcome, n + 1) ==
              ErrorLog(outcome, n) + (if outcome(n).Failed? then [outcome(n).message] else [])
  {
  }

  /**
   * The log holds the message of every failed verdict among the first `n`
   * and nothing else; it is empty exactly when all of them succeeded.
   */
  lemma {:induction false} ErrorLogMessages(outcome: nat -> Outcome, n: nat)
    ensures forall k :: 0 <= k < n && outcome(k).Failed? ==> outcome(k).message in ErrorLog(outcome, n)
    ensures forall m :: m in ErrorLog(outcome, n) ==> exists k :: 0 <= k < n && outcome(k).Failed? && outcome(k).message == m
    ensures ErrorLog(outcome, n) == [] <==> forall k :: 0 <= k < n ==> outcome(k).Done?
    decreases n
  {
    if n > 0 {
      ErrorLogMessages(outcome, n - 1);
      var prev := ErrorLog(outcome, n - 1);
      var added := if outcome(n - 1).Failed? then [outcome(n - 1).message] else [];
      assert ErrorLog(outcome, n) == prev + added;
      forall m | m in ErrorLog(outcome, n)
        ensures exists k :: 0 <= k < n && outcome(k).Failed? && outcome(k).message == m
      {
        if m !in prev {
          assert m in added;
        }
      }
      if ErrorLog(outcome, n) == [] {
        assert prev == [] && added == [];
      }
    }
  }

  /** Log lines: each message behind the same prefix. */
  function Prefixed(prefix: string, msgs: seq<string>): (log: seq<string>)
    ensures |log| == |msgs|
    ensures forall i :: 0 <= i < |msgs| ==> log[i] == prefix + msgs[i]
  {
    seq(|msgs|, i requires 0 <= i < |msgs| => prefix + msgs[i])
  }

  /**
   * A later timeout adds nothing to what is processed; a later record is
   * processed exactly once, after every earlier one.
   */
  lemma {:induction false} ReceivedRecordsSnoc(events: seq<InEvent>, e: InEvent)
    ensures e.Timeout? ==> ReceivedRecords(events + [e]) == ReceivedRecords(events)
    ensures e.Received? ==> ReceivedRecords(events + [e]) == ReceivedRecords(events) + [e.record]
    decreases |events|
  {
    if |events| > 0 {
      assert (events + [e])[1..] == events[1..] + [e];
      ReceivedRecordsSnoc(events[1..], e);
    } else {
      assert [e][1..] == [];
    }
  }

  /**
   * The receive loop over `events`: a timeout calls nothing; a record is
   * handed to the interpreter, and a failure is logged without leaving the loop.
   */
  method Drain(events: seq<InEvent>, outcome: nat -> Outcome) returns (processed: seq<Record>, errors: seq<string>)
    ensures processed == ReceivedRecords(events)
    ensures errors == ErrorLog(outcome, |processed|)
  {
    processed := [];
    errors := [];
    var i := 0;
    while i < |events|
      invariant i <= |events|
      invariant processed == ReceivedRecords(events[..i])
      invariant errors == ErrorLog(outcome, |processed|)
    {
      ReceivedRecordsSnoc(events[..i], events[i]);
      assert events[..i + 1] == events[..i] + [events[i]];
      match events[i] {
        case Timeout =>
        case Received(r) =>
          var verdict := outcome(|processed|);
          if verdict.Failed? {
            errors := errors + [verdict.message];
          }
          processed := processed + [r];
      }
      i := i + 1;
    }
    assert events[..i] == events;
  }

  /** Interleaving timeouts anywhere changes nothing that is processed. */
  lemma {:induction false} TimeoutsInvisible(a: seq<InEvent>, b: seq<InEvent>)
    ensures ReceivedRecords(a + [Timeout] + b) == ReceivedRecords(a + b)
    decreases |a|
  {
    if |a| == 0 {
      assert a + [Timeout] + b == [Timeout] + b;
      assert ([Timeout] + b)[1..] == b;
      assert a + b == b;
    } else {
      assert (a + [Timeout] + b)[1..] == a[1..] + [Timeout] + b;
      assert (a + b)[1..] == a[1..] + b;
      TimeoutsInvisible(a[1..], b);
    }
  }
}
