/**
 * The C++ Kafka destination module. Two revisions of its entry points
 * exist: the current one (`lib.cpp`) and an older one (`main.cpp`). They
 * share configure, set_param and shutdown; they differ in how start and
 * process_record report the producer's errors.
 */
module KafkaCpp {
  import opened Wrappers
  import opened Typedefs
  import opened Strings
  import opened Params
  import opened Metadata
  import opened KafkaMessages

  /** The module's globals: `ARGS`, `STEP_PARAMS` and `PRODUCER`. */
  datatype State = State(args: map<Handle, ConfigureArgs>, params: ParamStore, producer: Option<Producer>)

  const Initial: State := State(map[], map[], None)

  /** Configure: destinations only, stored under the handle. */
  function Configure(s: State, a: ConfigureArgs): (r: (State, ConfigureResult))
    ensures a.kind != Destination ==> r == (s, ErrorKindNotSupported)
    ensures a.kind == Destination ==> r.1 == ConfigureOk && r.0 == s.(args := s.args[a.stepHandle := a])
  {
    var (args', result) := ConfigureDestination(s.args, a);
    (s.(args := args'), result)
  }

  /** `set_param`: the step's map is created if absent, and `k` set to `v`. */
  function SetStepParam(s: State, h: Handle, k: string, v: string): (r: State)
    ensures r.args == s.args && r.producer == s.producer
    ensures GetParam(r.params, h, k) == Some(v)
    ensures forall h': Handle, k': string :: (h', k') != (h, k) ==> GetParam(r.params, h', k') == GetParam(s.params, h', k')
  {
    s.(params := SetParam(s.params, h, k, v))
  }

  /** A later `set_param` of the same key overwrites an earlier one. */
  lemma SetParamOverwrites(s: State, h: Handle, k: string, v1: string, v2: string)
    ensures SetStepParam(SetStepParam(s, h, k, v1), h, k, v2) == SetStepParam(s, h, k, v2)
  {
    SetParamLastWins(s.params, h, k, v1, v2);
  }

  /** Shutdown invokes the step's own termination callback with its handle; an unknown handle is ignored. */
  function Shutdown(s: State, h: Handle): (effects: seq<Effect>)
    ensures h !in s.args ==> effects == []
    ensures h in s.args ==> effects == [Terminated(s.args[h].onTerminate, h)]
  {
    if h !in s.args then [] else [TerminateVia(s.args[h], h)]
  }

  /**
   * A configured destination's shutdown invokes the termination callback it
   * was configured with, once, with its handle; a refused kind leaves a fresh
   * handle unknown to shutdown.
   */
  lemma ConfigureThenShutdown(s: State, a: ConfigureArgs)
    ensures a.kind == Destination ==>
              && Shutdown(Configure(s, a).0, a.stepHandle) == [Terminated(a.onTerminate, a.stepHandle)]
              && Terminations(Shutdown(Configure(s, a).0, a.stepHandle)) == 1
    ensures a.kind != Destination && a.stepHandle !in s.args ==> Shutdown(Configure(s, a).0, a.stepHandle) == []
  {
    if a.kind == Destination {
      TerminationsSnoc([], Terminated(a.onTerminate, a.stepHandle));
      assert [] + [Terminated(a.onTerminate, a.stepHandle)] == [Terminated(a.onTerminate, a.stepHandle)];
    }
  }

  function ArgsNotFound(h: Handle): string {
    "Init args for step '" + NatToDecimal(h) + "' not found"
  }

  function ParamsNotFound(h: Handle): string {
    "Step params for step '" + NatToDecimal(h) + "' not found"
  }

  /**
   * Start (`lib.cpp`): the arguments are checked first, then the parameters;
   * either missing is an error and no producer is created. Otherwise a
   * producer over the driver parameters replaces the global one, and its own
   * start error, if any, is the result.
   */
  function Start(s: State, h: Handle, producerStartError: Option<string>): (r: (State, StartResult))
    ensures h !in s.args ==> r == (s, StartErrorMisc(ArgsNotFound(h)))
    ensures h in s.args && h !in s.params ==> r == (s, StartErrorMisc(ParamsNotFound(h)))
    ensures h in s.args && h in s.params ==>
              && r.0 == s.(producer := Some(Producer(DriverParams(s.params[h]))))
              && (r.1 == StartOk <==> producerStartError.None?)
              && (producerStartError.Some? ==> r.1 == StartErrorMisc(producerStartError.value))
  {
    if h !in s.args then (s, StartErrorMisc(ArgsNotFound(h)))
    else if h !in s.params then (s, StartErrorMisc(ParamsNotFound(h)))
    else
      var s' := s.(producer := Some(Producer(DriverParams(s.params[h]))));
      match producerStartError
      case None => (s', StartOk)
      case Some(e) => (s', StartErrorMisc(e))
  }

  /**
   * After configure, start finds the arguments: it fails for want of
   * parameters until some `set_param` for the handle, and after one it
   * builds the producer over that handle's `driver.` parameters.
   */
  lemma ConfigureThenStart(s: State, a: ConfigureArgs, k: string, v: string, e: Option<string>)
    requires a.kind == Destination
    ensures var s1 := Configure(s, a).0;
            a.stepHandle !in s.params ==> Start(s1, a.stepHandle, e) == (s1, StartErrorMisc(ParamsNotFound(a.stepHandle)))
    ensures var s2 := SetStepParam(Configure(s, a).0, a.stepHandle, k, v);
            && a.stepHandle in s2.params
            && Start(s2, a.stepHandle, e).0.producer == Some(Producer(DriverParams(s2.params[a.stepHandle])))
            && (Start(s2, a.stepHandle, e).1 == StartOk <==> e.None?)
  {
    var s2 := SetStepParam(Configure(s, a).0, a.stepHandle, k, v);
    assert GetParam(s2.params, a.stepHandle, k) == Some(v);
  }

  /** Start (`main.cpp`): the same checks; past them the result is always success. */
  function StartLegacy(s: State, h: Handle): (r: (State, StartResult))
    ensures h !in s.args ==> r == (s, StartErrorMisc(ArgsNotFound(h)))
    ensures h in s.args && h !in s.params ==> r == (s, StartErrorMisc(ParamsNotFound(h)))
    ensures h in s.args && h in s.params ==>
              r == (s.(producer := Some(Producer(DriverParams(s.params[h])))), StartOk)
  {
    if h !in s.args then (s, StartErrorMisc(ArgsNotFound(h)))
    else if h !in s.params then (s, StartErrorMisc(ParamsNotFound(h)))
    else (s.(producer := Some(Producer(DriverParams(s.params[h])))), StartOk)
  }

  /** The two revisions start the same producer and agree whenever the producer starts cleanly. */
  lemma StartRevisionsAgree(s: State, h: Handle)
    ensures Start(s, h, None) == StartLegacy(s, h)
    ensures forall e :: Start(s, h, Some(e)).0 == StartLegacy(s, h).0
  {
  }

  const MissingTopic: string := "Missing the topic name in metadata"

  /**
   * process_record (`lib.cpp`): without `kafka.topic` in the metadata the
   * record is refused and nothing is produced; otherwise the message is
   * produced and the result is an error exactly when producing reported one.
   */
  function ProcessRecord(rec: Record, produceError: Option<string>): (r: (ProcessResult, Option<KafkaMessage>))
    ensures TopicName !in Names(rec.metadata) ==> r == (ProcessErr(MissingTopic), None)
    ensures TopicName in Names(rec.metadata) ==>
              && r.1 == Some(MessageFor(rec, MetadataMap(rec.metadata)[TopicName]))
              && (r.0 == ProcessOk <==> produceError.None?)
              && (produceError.Some? ==> r.0 == ProcessErr(produceError.value))
  {
    var mtd := MetadataMap(rec.metadata);
    if TopicName !in mtd then (ProcessErr(MissingTopic), None)
    else
      var msg := MessageFor(rec, mtd[TopicName]);
      match produceError
      case None => (ProcessOk, Some(msg))
      case Some(e) => (ProcessErr(e), Some(msg))
  }

  /**
   * process_record (`main.cpp`): without a topic the error carries no
   * message, the missing topic is written to the error stream, and nothing
   * is produced; otherwise the message is produced, nothing is written, and
   * the result is success whatever producing reported.
   */
  function ProcessRecordLegacy(rec: Record): (r: (ProcessResult, Option<KafkaMessage>, seq<string>))
    ensures TopicName !in Names(rec.metadata) ==> r == (ProcessErrUnset, None, [MissingTopic])
    ensures TopicName in Names(rec.metadata) ==>
              r == (ProcessOk, Some(MessageFor(rec, MetadataMap(rec.metadata)[TopicName])), [])
  {
    var mtd := MetadataMap(rec.metadata);
    if TopicName !in mtd then (ProcessErrUnset, None, [MissingTopic])
    else (ProcessOk, Some(MessageFor(rec, mtd[TopicName])), [])
  }

  /**
   * The two revisions produce the same message; they differ only in how a
   * missing topic and a failed send are reported.
   */
  lemma ProcessRecordRevisionsAgree(rec: Record, e: Option<string>)
    ensures ProcessRecordLegacy(rec).1 == ProcessRecord(rec, e).1
    ensures ProcessRecordLegacy(rec).0.ProcessOk? <==> TopicName in Names(rec.metadata)
    ensures ProcessRecord(rec, e).0.ProcessOk? <==> TopicName in Names(rec.metadata) && e.None?
    ensures ProcessRecordLegacy(rec).2 != [] <==> ProcessRecord(rec, e).1.None?
  {
    if TopicName in Names(rec.metadata) {
      assert ProcessRecord(rec, e).1.Some?;
    }
  }

  /**
   * The topic is the value of the last `kafka.topic` pair of the record, and
   * a header is produced for every `kafka.headers.` name of it.
   */
  lemma ProcessRecordUsesLastTopic(rec: Record, i: nat, e: Option<string>)
    requires i < |rec.metadata| && rec.metadata[i].name == TopicName && IsLastOfName(rec.metadata, i)
    ensures ProcessRecord(rec, e).1.Some?
    ensures ProcessRecord(rec, e).1.value.topic == rec.metadata[i].value
    ensures forall j :: 0 <= j < |rec.metadata| && StartsWith(rec.metadata[j].name, HeadersPrefix) ==>
              StripPrefix(rec.metadata[j].name, HeadersPrefix) in ProcessRecord(rec, e).1.value.headers
  {
    assert Names(rec.metadata)[i] == TopicName;
    var mtd := MetadataMap(rec.metadata);
    forall j | 0 <= j < |rec.metadata| && StartsWith(rec.metadata[j].name, HeadersPrefix)
      ensures StripPrefix(rec.metadata[j].name, HeadersPrefix) in Headers(mtd)
    {
      assert Names(rec.metadata)[j] == rec.metadata[j].name;
      FilterKeepsPrefixed(mtd, HeadersPrefix, rec.metadata[j].name);
    }
  }
}
