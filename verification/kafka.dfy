/**
 * The Rust Kafka destination module. Its configuration is kept in the
 * host-side store (`set/get_pipeline_module_configuration`) and its
 * parameters are read through `get_params`.
 */
module KafkaRust {
  import opened Wrappers
  import opened Typedefs
  import opened Strings
  import opened Params
  import opened Metadata
  import opened KafkaMessages
  import KafkaCpp

  /** The stored configurations and the global `PRODUCER`. */
  datatype State = State(configs: map<Handle, ConfigureArgs>, producer: Option<Producer>)

  const DefaultTopic: string := "test"

  /** Configure: destinations only; any other kind stores nothing. */
  function Configure(s: State, a: ConfigureArgs): (r: (State, ConfigureResult))
    ensures a.kind != Destination ==> r == (s, ErrorKindNotSupported)
    ensures a.kind == Destination ==> r.1 == ConfigureOk && r.0 == s.(configs := s.configs[a.stepHandle := a])
  {
    var (configs', result) := ConfigureDestination(s.configs, a);
    (s.(configs := configs'), result)
  }

  /**
   * Start: without a stored configuration it is an error and the producer is
   * untouched; missing parameters count as none; the producer is replaced by
   * one over the driver parameters and the result is success.
   */
  function Start(s: State, h: Handle, store: ParamStore): (r: (State, StartResult))
    ensures h !in s.configs ==> r == (s, StartErrorMisc("Init args for step '" + NatToDecimal(h) + "' not found"))
    ensures h in s.configs ==> r.1 == StartOk && r.0.configs == s.configs
    ensures h in s.configs ==>
              var own := s.configs[h].stepHandle;
              r.0.producer == Some(Producer(DriverParams(if own in store then store[own] else map[])))
  {
    if h !in s.configs then (s, StartErrorMisc("Init args for step '" + NatToDecimal(h) + "' not found"))
    else
      var stepParams := GetParams(store, s.configs[h].stepHandle).GetOr(map[]);
      (s.(producer := Some(Producer(DriverParams(stepParams)))), StartOk)
  }

  const ProducerOffline: string := "Cannot send a message to Kafka: producer is offline"

  /** The line printed when the producer reports a failed send. */
  function SendFailed(e: string): string {
    "Failed to send a message to Kafka: " + e
  }

  /**
   * process_record: with no producer nothing is sent and the offline
   * producer is logged; otherwise the message goes to the `kafka.topic` of
   * the metadata, `test` when absent, and a failed send is printed. The
   * result is success in every case, a failed send included.
   */
  function ProcessRecord(s: State, rec: Record, produceError: Option<string>): (r: (ProcessResult, Option<KafkaMessage>, seq<string>))
    ensures r.0 == ProcessOk
    ensures s.producer.None? <==> r.1.None?
    ensures s.producer.None? ==> r.2 == [ProducerOffline]
    ensures s.producer.Some? ==> r.2 == (if produceError.Some? then [SendFailed(produceError.value)] else [])
    ensures r.1.Some? ==> r.1.value.payload == rec.content
    ensures r.1.Some? ==> (r.1.value.topic == DefaultTopic <== TopicName !in Names(rec.metadata))
    ensures r.1.Some? && TopicName in Names(rec.metadata) ==>
              r.1.value.topic == MetadataMap(rec.metadata)[TopicName]
    ensures r.1.Some? ==> r.1.value.headers == Headers(MetadataMap(rec.metadata))
    ensures r.1.Some? ==> r.1.value.key == Get(MetadataMap(rec.metadata), KeyName)
  {
    if s.producer.None? then (ProcessOk, None, [ProducerOffline])
    else
      var mtd := MetadataMap(rec.metadata);
      var topic := Get(mtd, TopicName).GetOr(DefaultTopic);
      var log := match produceError
        case None => []
        case Some(e) => [SendFailed(e)];
      (ProcessOk, Some(MessageFor(rec, topic)), log)
  }

  /**
   * A configured destination starts under its own handle, with a producer
   * over the `driver.` parameters of that handle; a refused kind leaves a
   * fresh handle unknown to start.
   */
  lemma ConfigureThenStart(s: State, a: ConfigureArgs, store: ParamStore)
    ensures a.kind == Destination ==>
              var s1 := Configure(s, a).0;
              && Start(s1, a.stepHandle, store).1 == StartOk
              && Start(s1, a.stepHandle, store).0.configs[a.stepHandle] == a
              && Start(s1, a.stepHandle, store).0.producer ==
                   Some(Producer(DriverParams(GetParams(store, a.stepHandle).GetOr(map[]))))
    ensures a.kind != Destination && a.stepHandle !in s.configs ==>
              Start(Configure(s, a).0, a.stepHandle, store).1.StartErrorMisc?
  {
  }

  /**
   * The Rust and the C++ modules build the same producer for a configured
   * step whose parameters the C++ module holds as the host does, and both
   * report success when that producer starts cleanly.
   */
  lemma StartSameProducerAsCpp(s: State, c: KafkaCpp.State, a: ConfigureArgs, store: ParamStore)
    requires a.kind == Destination
    requires c.params == store && a.stepHandle in store
    ensures var h := a.stepHandle;
            var rust := Start(Configure(s, a).0, h, store);
            var cpp := KafkaCpp.Start(KafkaCpp.Configure(c, a).0, h, None);
            && rust.0.producer == cpp.0.producer
            && rust.1 == cpp.1 == StartOk
  {
  }

  /**
   * Where the record names a topic and a producer exists, the Rust module
   * and the C++ module send the same message.
   */
  lemma SameMessageAsCpp(s: State, rec: Record, e: Option<string>)
    requires s.producer.Some?
    requires TopicName in Names(rec.metadata)
    ensures ProcessRecord(s, rec, e).1 == KafkaCpp.ProcessRecord(rec, e).1
  {
  }

  /** Where the record names no topic, the C++ module refuses it while this one sends it to `test`. */
  lemma MissingTopicDiffers(s: State, rec: Record, e: Option<string>)
    requires s.producer.Some?
    requires TopicName !in Names(rec.metadata)
    ensures KafkaCpp.ProcessRecord(rec, e).1.None?
    ensures ProcessRecord(s, rec, e).1.Some? && ProcessRecord(s, rec, e).1.value.topic == DefaultTopic
  {
  }
}
