/**
 * What the Kafka destination modules (the C++ one and the Rust one) share:
 * the destination-only configure rule, the producer built from the
 * `driver.`-prefixed parameters, and the message extracted from a record's
 * metadata (headers from `kafka.headers.*`, optional `kafka.key`, `kafka.topic`).
 */
module KafkaMessages {
  import opened Wrappers
  import opened Typedefs
  import opened Strings
  import opened Params
  import opened Metadata

  const DriverPrefix: string := "driver."
  const HeadersPrefix: string := "kafka.headers."
  const KeyName: string := "kafka.key"
  const TopicName: string := "kafka.topic"

  /** A message handed to the Kafka client. */
  datatype KafkaMessage = KafkaMessage(
    topic: string,
    key: Option<string>,
    headers: map<string, string>,
    payload: seq<Byte>)

  /** A producer holds the driver parameters it was constructed with. */
  datatype Producer = Producer(driverParams: map<string, string>)

  /**
   * Configure of a destination-only module: any other kind is refused and
   * nothing is stored; a destination's arguments are stored under its handle,
   * replacing earlier ones.
   */
  function ConfigureDestination(store: map<Handle, ConfigureArgs>, a: ConfigureArgs)
    : (r: (map<Handle, ConfigureArgs>, ConfigureResult))
    ensures r.1 == ConfigureOk <==> a.kind == Destination
    ensures r.1 != ConfigureOk ==> r.1 == ErrorKindNotSupported && r.0 == store
    ensures r.1 == ConfigureOk ==> r.0.Keys == store.Keys + {a.stepHandle} && r.0[a.stepHandle] == a
    ensures forall h :: h in store && h != a.stepHandle ==> h in r.0 && r.0[h] == store[h]
  {
    if a.kind != Destination then (store, ErrorKindNotSupported)
    else (store[a.stepHandle := a], ConfigureOk)
  }

  /** The step parameters starting with `driver.`, with that prefix removed; values unchanged. */
  function DriverParams(stepParams: map<string, string>): (r: map<string, string>)
    ensures forall k :: k in r <==> DriverPrefix + k in stepParams
    ensures forall k :: k in r ==> r[k] == stepParams[DriverPrefix + k]
  {
    FilterStripPrefix(stepParams, DriverPrefix)
  }

  /**
   * The client settings a producer applies when it starts: each driver
   * parameter under its key with every `_` turned into `.`.
   */
  function ProducerSettings(p: Producer): set<(string, string)> {
    set k | k in p.driverParams :: (ReplaceAllSpec(k, "_", "."), p.driverParams[k])
  }

  /**
   * Every driver parameter is applied, under a key of the same length that
   * has `.` where the parameter's key has `_` and no `_` left, with its value
   * unchanged; and nothing else is applied.
   */
  lemma ProducerSettingsFaithful(p: Producer)
    ensures forall k :: k in p.driverParams ==> (MapChar(k, '_', '.'), p.driverParams[k]) in ProducerSettings(p)
    ensures forall kv :: kv in ProducerSettings(p) ==>
              exists k :: k in p.driverParams && kv == (MapChar(k, '_', '.'), p.driverParams[k])
    ensures forall kv :: kv in ProducerSettings(p) ==> forall i :: 0 <= i < |kv.0| ==> kv.0[i] != '_'
  {
    forall k | k in p.driverParams
      ensures ReplaceAllSpec(k, "_", ".") == MapChar(k, '_', '.')
    {
      ReplaceSingleChar(k, '_', '.');
    }
    forall kv | kv in ProducerSettings(p)
      ensures forall i :: 0 <= i < |kv.0| ==> kv.0[i] != '_'
    {
      var k :| k in p.driverParams && kv == (ReplaceAllSpec(k, "_", "."), p.driverParams[k]);
      ReplaceCharRemoves(k, '_', ".");
    }
  }

  /** The metadata entries starting with `kafka.headers.`, with that prefix removed; values unchanged. */
  function Headers(mtd: map<string, string>): (r: map<string, string>)
    ensures forall k :: k in r <==> HeadersPrefix + k in mtd
    ensures forall k :: k in r ==> r[k] == mtd[HeadersPrefix + k]
  {
    FilterStripPrefix(mtd, HeadersPrefix)
  }

  /** The message for `rec` to `topic`: headers and optional key from its metadata map. */
  function MessageFor(rec: Record, topic: string): (msg: KafkaMessage)
    ensures msg.topic == topic && msg.payload == rec.content
    ensures msg.key.Some? <==> KeyName in MetadataMap(rec.metadata)
    ensures msg.key.Some? ==> msg.key.value == MetadataMap(rec.metadata)[KeyName]
    ensures msg.headers == Headers(MetadataMap(rec.metadata))
  {
    var mtd := MetadataMap(rec.metadata);
    KafkaMessage(topic, Get(mtd, KeyName), Headers(mtd), rec.content)
  }
}
