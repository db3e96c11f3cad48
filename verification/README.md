# torustiq pipeline modules in Dafny

A model of the stage plug-ins of the torustiq data pipeline:

- the C++ Kafka destination, in both of its revisions (`lib.cpp` and `main.cpp`);
- the Rust Kafka destination;
- the Python module and the older Python transformation module;
- the Lua module;
- the stdio module;
- the Prometheus metrics listener;
- the shared C ABI types.

A record is a byte buffer plus an ordered array of name/value metadata pairs, and a step is identified by a 32-bit handle. The host hands each step two callbacks: one that delivers a record downstream and one that signals termination. Calling one is modelled as an `Effect` value in a returned trace.

Each module's global registry is a state of maps keyed by handle. Configure, start, set_param and process_record are pure transition functions over that state. The worker threads are modelled as functions or methods over a finite sequence of events.

Everything outside the modules is a parameter, except two record helpers of the shared library whose meaning is assumed (see "Notes on the sources"):

- the embedded interpreters, each given as its verdict on each call;
- the Kafka client;
- the file system;
- address parsing and the exporter install;
- the host's parameter store;
- the iteration order of Rust `HashMap`s, given as a sequence that lists every key exactly once.

Modules, one per file:

| module | what it holds |
|---|---|
| `Wrappers` | `Option` and `Result` |
| `Typedefs` | the common types (`Record`, step kinds, configure arguments, result tags) |
| `Strings` | `replace_all` with its reference definition, `find`, prefix tests, decimal rendering and `u32` parsing, `join` |
| `Params` | the per-handle parameter store and prefix filtering |
| `Metadata` | metadata array to map, where the last pair of a name wins |
| `PyRecords` | `PyRecord` and its conversions |
| `Runner` | the receive loop shared by the Lua and Python receivers |
| `KafkaMessages` | what both Kafka modules share |
| `KafkaCpp` | the C++ Kafka module |
| `KafkaRust` | the Rust Kafka module |
| `PythonStep` | the Python module's registry |
| `PyEnv` | the Python module's routines |
| `TransformPython` | the Python transformation module |
| `Lua` | the Lua module |
| `Render` | record printing in stdio and Lua |
| `Stdio` | the stdio module |
| `Metrics` | the metrics tables |
| `Prometheus` | the Prometheus listener |

## Model

| member | source | states |
|---|---|---|
| Typedefs.Terminations | torustiq_common_typedefs.hpp:78-83 | the number of termination calls in a trace never exceeds its length |
| Typedefs.TerminationsSnoc | torustiq_common_typedefs.hpp:78-83 | appending an effect raises the termination count by one exactly when it is a termination |
| Typedefs.FirstKey | torustiq_common_typedefs.hpp:103-111 | the conflicting handle reported by ErrorMultipleStepsNotSupported is one the registry holds |
| Typedefs.AtMostOneKey | python/src/lib.rs:62-65 | in a registry of at most one step, a key found in it is the only one, so `keys().next()` is the registered step |
| Strings.FindFrom | kafka_cpp/src/utils/strings.cpp:10 | `find` gives the leftmost occurrence at or after the start, or none when there is none |
| Strings.ReplaceAll | kafka_cpp/src/utils/strings.cpp:7-16 | the imperative loop, which resumes scanning after the inserted text, computes exactly the leftmost non-overlapping replacement of the original string |
| Strings.ReplaceStep | kafka_cpp/src/utils/strings.cpp:12-13 | one replacement plus the advance past `to` keeps the loop invariant: finished output, then the unscanned suffix of the original |
| Strings.ReplaceDone | kafka_cpp/src/utils/strings.cpp:10 | when `find` fails, the string is the replacement of the whole original |
| Strings.ReplaceAllAbsent | kafka_cpp/src/utils/strings.cpp:10-15 | without an occurrence of `from`, the result is the input unchanged |
| Strings.ReplaceAllAtFirst | kafka_cpp/src/utils/strings.cpp:10-13 | the result is the text before the first occurrence, then `to`, then the replacement of the rest |
| Strings.EmptyPatternNoProgress | kafka_cpp/src/utils/strings.cpp:10-13 | an empty `from` is found at every position, so the loop never ends whatever `to` is; the model therefore requires a non-empty `from` |
| Strings.ReplaceSingleChar | kafka_cpp/src/producer.cpp:14-23 | replacing one character by one character keeps the length and changes exactly the positions that held it |
| Strings.ReplaceCharRemoves | kafka_cpp/src/producer.cpp:17-21 | after replacing a character by text without it, the character no longer occurs |
| Strings.StripPrefix | kafka/src/lib.rs:98-99 | removing a prefix leaves the text that the prefix completes to the original |
| Strings.NatToDecimal | kafka_cpp/src/lib.cpp:83 | a handle renders as a non-empty string of digits without a leading zero |
| Strings.ParseU32OfDecimal | prometheus/src/metrics.rs:80 | parsing the decimal rendering of a `u32` gives the value back |
| Strings.DecimalValueOfNatToDecimal | lua/src/lib.rs:71 | the decimal rendering of a number denotes that number |
| Strings.JoinSnoc | stdio/src/lib.rs:72-74 | joining with one more item appends the separator and the item |
| Params.SetParam | kafka_cpp/src/lib.cpp:45-53 | set_param creates the step's map if needed and sets the key; every other handle and key is unchanged |
| Params.SetParamLastWins | kafka_cpp/src/lib.cpp:52 | a later value for the same key overwrites the earlier one |
| Params.SetParamCommutes | kafka_cpp/src/main.cpp:55-63 | setting two different keys gives the same store in either order |
| Params.FilterStripPrefix | kafka_cpp/src/lib.cpp:101-113 | the result has exactly the keys that carry the prefix, with the prefix removed and the values kept |
| Params.FilterKeepsPrefixed | kafka/src/lib.rs:68-76 | every prefixed key survives, stripped |
| Params.StrippedKeys | prometheus/src/metrics.rs:58-65 | a key survives the filter exactly when the prefix put in front of it is a key of the map |
| Metadata.MetadataMap | kafka_cpp/src/lib.cpp:138-143 | the map from the array has exactly the array's names, and each name maps to the value of its last pair |
| Metadata.MetadataMapLastWins | kafka_cpp/src/main.cpp:128-133 | every value in the map comes from the last pair with that name |
| Metadata.ElementsSize | python/src/py_record.rs:43-45 | collecting names into a set loses entries exactly when names repeat |
| Metadata.EnumerationSize | torustiq-transform-python/src/py_record.rs:52-53 | an iteration over a map visits as many keys as the map holds |
| PyRecords.FromRecord | python/src/py_record.rs:36-52 | the content is copied with its length; the map has exactly the array's names, and the last pair of a name wins |
| PyRecords.IntoRecord | torustiq-transform-python/src/py_record.rs:50-58 | one metadata pair per map entry, with distinct names and the entry's value, and the content moved over |
| PyRecords.PyRecordRoundTrip | torustiq-transform-python/src/py_record.rs:32-58 | map form to array form and back restores the same content and metadata map, whatever the iteration order |
| PyRecords.RecordRoundTripDistinct | python/src/py_record.rs:36-58 | a record whose names are distinct survives array to map to array when iterated in array order |
| PyRecords.RecordRoundTripCollapses | python/src/py_record.rs:43-45 | a record with a repeated name comes back with fewer pairs, so it cannot be restored |
| Runner.RoutineFor | torustiq-transform-python/src/lib.rs:80-85 | a source step runs the sender routine and every other kind the receiver routine, with the same code |
| Runner.ErrorLogSnoc | lua/src/threads.rs:83-85 | one more processed record adds its failure message at the end of the log exactly when processing it failed |
| Runner.ErrorLogMessages | lua/src/threads.rs:83-85 | the log holds the message of every failed verdict and nothing else, and is empty exactly when every record was processed successfully |
| Runner.ReceivedRecordsSnoc | python/src/py_env.rs:56-59 | a later timeout adds nothing to what is processed, and a later record is processed once, after all earlier ones |
| Runner.Drain | lua/src/threads.rs:77-86 | the receive loop hands exactly the received records to the interpreter, each once and in receive order; every failure is logged and the loop goes on |
| Runner.TimeoutsInvisible | python/src/py_env.rs:56-58 | a timeout anywhere in the event sequence changes nothing that is processed |
| KafkaMessages.ConfigureDestination | kafka/src/lib.rs:47-54 | only a destination is accepted and stored under its handle, replacing the previous entry; any other kind is refused and nothing is stored |
| KafkaMessages.DriverParams | kafka/src/lib.rs:68-76 | the driver parameters are exactly the `driver.` keys with the prefix removed, with the values kept |
| KafkaMessages.ProducerSettingsFaithful | kafka_cpp/src/producer.cpp:32-39 | every driver parameter is applied with each `_` of its key turned into `.` and its value unchanged; no `_` remains in an applied key, and nothing else is applied |
| KafkaMessages.Headers | kafka/src/lib.rs:96-100 | the headers are exactly the `kafka.headers.` entries with the prefix removed, with the values kept |
| KafkaMessages.MessageFor | kafka_cpp/src/lib.cpp:145-161 | the message carries the record's content, the headers, and a key exactly when `kafka.key` is present, with its value |
| KafkaCpp.Configure | kafka_cpp/src/lib.cpp:27-43 | a non-destination is refused and nothing changes; a destination is stored under its handle |
| KafkaCpp.SetStepParam | kafka_cpp/src/lib.cpp:45-53 | set_param sets exactly one key of one step; the arguments and the producer are untouched |
| KafkaCpp.SetParamOverwrites | kafka_cpp/src/main.cpp:55-63 | two set_param calls for the same key leave the later value |
| KafkaCpp.ConfigureThenShutdown | kafka_cpp/src/lib.cpp:27-62 | after a destination is configured, shutdown calls the termination callback it was configured with, exactly once, with its handle; a refused kind leaves a fresh handle unknown to shutdown |
| KafkaCpp.Start | kafka_cpp/src/lib.cpp:73-134 | missing arguments (checked first) or missing parameters are errors and create no producer; otherwise the producer over the driver parameters replaces the global one, and the result is an error exactly when the producer's start reports one |
| KafkaCpp.StartLegacy | kafka_cpp/src/main.cpp:79-124 | the same checks; past them the result is always success |
| KafkaCpp.StartRevisionsAgree | kafka_cpp/src/main.cpp:79-124 | both revisions build the same producer, and they give the same result when the producer starts cleanly |
| KafkaCpp.ConfigureThenStart | kafka_cpp/src/lib.cpp:27-134 | after configure, start fails with "Step params ... not found" until a set_param for the handle; after one, it builds the producer over that handle's `driver.` parameters and succeeds exactly when the producer starts cleanly |
| KafkaCpp.ProcessRecord | kafka_cpp/src/lib.cpp:136-186 | without `kafka.topic` the record is refused with "Missing the topic name in metadata" and nothing is produced; otherwise the message goes to the topic, and the result is an error exactly when producing reported one |
| KafkaCpp.ProcessRecordLegacy | kafka_cpp/src/main.cpp:126-168 | without a topic, "Missing the topic name in metadata" is written to the error stream, the error carries no message and nothing is produced; otherwise nothing is written and the result is success whatever producing reported |
| KafkaCpp.ProcessRecordRevisionsAgree | kafka_cpp/src/main.cpp:126-168 | the two revisions produce the same message; the legacy one succeeds exactly when a topic is present, the later one only when producing also reports no error; the legacy one writes its diagnostic exactly when no message is produced |
| KafkaCpp.ProcessRecordUsesLastTopic | kafka_cpp/src/lib.cpp:138-171 | the topic is the value of the last `kafka.topic` pair, and every `kafka.headers.` name yields a header |
| KafkaRust.Configure | kafka/src/lib.rs:47-54 | a non-destination is refused and nothing is stored; a destination's configuration is stored |
| KafkaRust.Start | kafka/src/lib.rs:57-80 | without a stored configuration start fails and the producer is untouched; missing parameters count as none; otherwise the producer over the driver parameters is installed and start succeeds |
| KafkaRust.ConfigureThenStart | kafka/src/lib.rs:47-80 | a configured destination starts successfully under its handle with a producer over that handle's `driver.` parameters; a refused kind leaves a fresh handle unknown to start |
| KafkaRust.StartSameProducerAsCpp | kafka/src/lib.rs:57-80 | for a destination configured in both modules and parameters held alike, the Rust and C++ modules build the same producer and both succeed when it starts cleanly |
| KafkaRust.ProcessRecord | kafka/src/lib.rs:83-112 | the result is success in every case; without a producer nothing is sent and "Cannot send a message to Kafka: producer is offline" is logged; with one, a failed send is printed as "Failed to send a message to Kafka: " and the error, and nothing else is written; otherwise the message carries the content, the `kafka.headers.` entries and the `kafka.key` value when present, and goes to `kafka.topic`, or to `test` when it is absent |
| KafkaRust.SameMessageAsCpp | kafka/src/lib.rs:95-108 | with a topic named, the Rust and C++ modules send the same message |
| KafkaRust.MissingTopicDiffers | kafka/src/lib.rs:102 | without a topic the C++ module sends nothing while the Rust module sends to `test` |
| PythonStep.Configure | python/src/lib.rs:58-72 | with a step registered, configure is refused with the handle of a registered step and nothing changes; otherwise the step gets a sender, a receiver and its stored configuration |
| PythonStep.ConfigureReportsRegisteredStep | python/src/lib.rs:62-65 | in a valid registry the reported conflict is the registered step's handle |
| PythonStep.CodeFor | python/src/lib.rs:84-97 | a `file` parameter gives the file's contents or the read error; otherwise `code_contents`; with neither it is an error |
| PythonStep.Start | python/src/lib.rs:75-108 | without a configuration start fails and keeps the receiver; otherwise the receiver is removed before the code is looked up, and on success the worker for the step's kind is spawned |
| PythonStep.SecondStartFails | python/src/lib.rs:80-83 | whatever the first start did, a second start fails with "has no registered receiver" |
| PythonStep.FileTakesPrecedence | python/src/lib.rs:84-92 | with both `file` and `code_contents` set, the file's contents are used |
| PythonStep.ProcessRecord | python/src/lib.rs:112-121 | an unknown handle returns success and drops the record; the registered step's record is appended to its queue while its receiver is unclaimed or its worker exists; with neither, the send panics |
| PythonStep.ConfigureKeepsValid | python/src/lib.rs:62-71 | configure keeps the registry invariant: at most one step, registered under its own handle |
| PythonStep.StartKeepsValid | python/src/lib.rs:75-108 | start keeps the registry invariant |
| PythonStep.ProcessKeepsValid | python/src/lib.rs:112-121 | process_record keeps the registry invariant |
| PythonStep.RunKeepsValid | python/src/lib.rs:58-121 | any sequence of operations keeps at most one step in SENDERS |
| PythonStep.ReachableValid | python/src/lib.rs:62-68 | every reachable registry holds at most one step |
| PythonStep.ProcessFifo | python/src/lib.rs:112-120 | records sent one after another queue up in sending order |
| PyEnv.Send | python/src/py_env.rs:20-29 | an unconfigured handle delivers nothing and logs "torustiq_send: invalid step handle: " with the handle; a configured one logs nothing and calls its delivery callback once, with the converted record and the same handle |
| PyEnv.SendRoundTrip | python/src/py_env.rs:20-29 | a configured step delivers one record which, converted back for Python, is the record that was sent |
| PyEnv.SenderRoutine | python/src/py_env.rs:32-49 | after `run`, a failure is logged and the termination callback is called exactly once, unless the configuration is gone, in which case it is not called |
| PyEnv.SenderTerminationIgnoresRun | python/src/py_env.rs:34-46 | whether `run` succeeded does not change which callbacks are invoked |
| PyEnv.AsPyRecords | python/src/py_env.rs:56-59 | each received record is converted position by position |
| PyEnv.ReceiverRoutine | python/src/py_env.rs:52-66 | every received record is converted and passed to `process` once, in receive order; failures are logged with the routine's prefix and the loop goes on |
| TransformPython.StepInit | torustiq-transform-python/src/lib.rs:64-93 | with a step registered, step_init is refused with that step's handle; otherwise the step is registered with its arguments and an empty queue, and the worker for its kind is spawned with `code_contents` or `""` |
| TransformPython.StepInitSingleInstance | torustiq-transform-python/src/lib.rs:68-73 | one more step_init keeps at most one step registered |
| TransformPython.ProcessRecord | torustiq-transform-python/src/lib.rs:142-150 | the result is always `None`; an unknown handle enqueues nothing; a known one appends the record to its queue and leaves every other step alone |
| TransformPython.Send | torustiq-transform-python/src/lib.rs:39-47 | the record goes to the step's delivery callback with the same handle; an unknown handle panics |
| TransformPython.SenderRoutineEnd | torustiq-transform-python/src/lib.rs:95-106 | a failed `run` is logged as "Error on execution of 'run' Python function: " and its message, before anything else; then the step's termination callback is called with the handle, and an unknown handle panics |
| TransformPython.SenderRoutineEndAgrees | torustiq-transform-python/src/lib.rs:95-106 | this module and the later Python module log a failed `run` alike and call the same termination callback for a step they both know |
| TransformPython.RunKeepsSingleStep | torustiq-transform-python/src/lib.rs:64-150 | any sequence of step_init and process_record keeps at most one step registered, and a registered step keeps its arguments while its queue only grows at the end |
| TransformPython.ReachableSingleStep | torustiq-transform-python/src/lib.rs:68-73 | from the empty registry no sequence of operations registers two steps |
| TransformPython.ProcessFifo | torustiq-transform-python/src/lib.rs:142-150 | records handed one after another to a registered step queue up in the order they were handed |
| TransformPython.InitThenCallbacks | torustiq-transform-python/src/lib.rs:39-106 | once a step is initialised, whatever follows, a record sent from Python goes to that step's delivery callback and the sender routine ends with its termination callback; any other handle panics |
| TransformPython.ReceiverRoutine | torustiq-transform-python/src/lib.rs:108-123 | every received record is converted and passed to `process` once, in receive order; failures are logged with "Error: " and the loop goes on |
| Lua.ConfigureKeepsValid | lua/src/lib.rs:41-46 | stored configurations are always of source steps, under their own handles |
| Lua.Start | lua/src/lib.rs:49-82 | an unconfigured handle fails with "Init args ... not found"; a source starts and spawns its routine; any other kind fails with "must be source" |
| Lua.StartSucceedsIffConfigured | lua/src/lib.rs:51-54 | in a reachable state start succeeds exactly for configured handles, so the must-be-source error cannot arise |
| Lua.ConfigureThenStart | lua/src/lib.rs:41-80 | a successfully configured step starts with its own arguments |
| Lua.LauncherCallsRunWithHandle | lua/src/lib.rs:69-71 | the launcher is the step's code followed by a `run(...)` call whose literal parses back to the step's handle |
| Lua.SourceRoutine | lua/src/lib.rs:58-77 | without an environment no code runs; otherwise the code with the launcher runs; the termination callback is called exactly once in either case; an environment failure is logged, and a failed run is logged as "An error occurred in Lua code: " and its message |
| Lua.ThreadSource | lua/src/threads.rs:21-37 | the same for the thread module's source routine, over the code it is given, except that a failed run is logged as "An error occurred in Lua sender code: " and its message |
| Lua.Processor | lua/src/threads.rs:48-88 | set-up runs env, then receiver claim, then function creation; the first failure is logged, terminates once and processes nothing; otherwise each record is processed once in order, errors are logged, and the step is never terminated |
| Render.MetadataLineSnoc | stdio/src/lib.rs:69-74 | no pairs render as nothing, one pair alone, and each further pair adds `, name = value` |
| Render.PlainFormatFrame | stdio/src/lib.rs:76-79 | a format whose only `%` is one `%R` prints its literal text around the content, provided the content itself holds no `%` (a `%M` inside the content would be expanded, see `Render.ContentMarkerExpanded`) |
| Render.DefaultFormatPrintsContent | stdio/src/lib.rs:76-79 | with the default format and content without `%M`, the printed text is the content |
| Render.ContentMarkerExpanded | lua/src/lib.rs:94-97 | `%R` is substituted before `%M`, so a `%M` inside the content is replaced by the metadata line |
| Render.ProcessRecord | stdio/src/lib.rs:66-83 | the result is `None`, and the output is the `format` parameter (default `%R`) with `%R` replaced by the content and then `%M` by the metadata line, followed by a line break |
| Render.ProcessRecordDefault | stdio/src/lib.rs:76-81 | without a `format` parameter the printed line is the content, unless the content holds `%M` |
| Render.ProcessRecordPlainFormat | lua/src/lib.rs:93-98 | a `format` parameter whose only `%` is one `%R` prints its text around the content, whatever the metadata, provided the decoded content holds no `%` |
| Stdio.Configure | stdio/src/lib.rs:35-64 | source and destination are accepted and any other kind is refused; only a source spawns the line reader, which captures the step's own arguments |
| Stdio.LinesBeforeError | stdio/src/lib.rs:42-49 | the lines read are exactly the reads before the first read error |
| Stdio.ReadLines | stdio/src/lib.rs:39-58 | the reader's effects are exactly those of the declarative reader: each line before the first read error delivered in order, with no metadata and under the step's own handle, then exactly one termination; a read error is logged and ends the loop |
| Stdio.LinesPrefix | stdio/src/lib.rs:42-49 | a line read after only lines is among the lines delivered, at its own position |
| Stdio.ConfigureThenRead | stdio/src/lib.rs:36-59 | a configured source's reader delivers each line, with no metadata, to the callback it was configured with and under its own handle, and then calls its own termination callback |
| Metrics.StepConfig | prometheus/src/metrics.rs:58-65 | only parameters starting `pipeline.steps.` are considered, with that prefix stripped |
| Metrics.StepName | prometheus/src/metrics.rs:70-73 | a key without a dot has no step name; otherwise the name is the text before the first dot |
| Metrics.Absorb | prometheus/src/metrics.rs:69-84 | one loop iteration panics exactly for a step's `.handle` value that is not a `u32` |
| Metrics.AbsorbSpec | prometheus/src/metrics.rs:74-83 | one iteration gives the step an entry, defaulting to handle 0 and id `""`, and sets its handle or id when the key names one; other steps are untouched |
| Metrics.ParseStepsPanics | prometheus/src/metrics.rs:69-84 | the parameter loop panics exactly when some handle value is not a `u32`, whatever the iteration order |
| Metrics.AbsorbName | prometheus/src/metrics.rs:74-83 | after one iteration a step name has an entry exactly when it had one before or the key belongs to it |
| Metrics.ParseStepsNames | prometheus/src/metrics.rs:69-84 | the loop gives an entry to exactly the step names that occur before a dot in some key |
| Metrics.ParseStepsValues | prometheus/src/metrics.rs:69-84 | each entry the loop yields holds the handle and id of its step's last handle and id keys, or the defaults |
| Metrics.ParseStepsEntries | prometheus/src/metrics.rs:69-84 | the loop yields an entry for exactly the step names of the keys with a dot, each with the handle and id of the step's last handle and id keys, or the defaults |
| Metrics.NoKeysDefaults | prometheus/src/metrics.rs:74-76 | a step with no keys has handle 0 and id `""` |
| Metrics.InsertStepsSpec | prometheus/src/metrics.rs:86-90 | after insertion every step handle has the same fresh entry in all three tables, labelled with one of its steps' ids; every other handle is unchanged |
| Metrics.InsertStepsAligned | prometheus/src/metrics.rs:86-90 | insertion keeps the three tables tracking the same handles |
| Metrics.Init | prometheus/src/metrics.rs:44-92 | the first poisoned lock, in the order MSG_IN, MSG_OUT, ERRORS_NUM, is reported and changes nothing; a panic or success happens only when all three locks are taken |
| Metrics.InitPanics | prometheus/src/metrics.rs:79-80 | with the locks taken, init panics exactly when some `pipeline.steps.<name>.handle` value is not a `u32` |
| Metrics.InitTracksSteps | prometheus/src/metrics.rs:58-90 | after init, each step named by a parameter has a fresh entry in all three tables under the handle its parameters give |
| Metrics.InitLeavesOthers | prometheus/src/metrics.rs:86-90 | after init, a handle that no step's parameters give is unchanged in every table |
| Metrics.InitAligned | prometheus/src/metrics.rs:86-90 | init keeps the three tables tracking the same handles |
| Metrics.Inc | prometheus/src/metrics.rs:133-141 | an untracked handle is ignored; a tracked one gains one record and the content length in bytes, keeps its label, and every other entry is unchanged |
| Metrics.IncAllCounts | prometheus/src/metrics.rs:143-161 | after a sequence of records a tracked handle's counters have grown by exactly the number and total size of its records, and no handle was added or dropped |
| Prometheus.HostPort | prometheus/src/lib.rs:29-56 | the host is `listen.host` or `0.0.0.0`, and the port is `port` or `9000` |
| Prometheus.DefaultEndpoint | prometheus/src/lib.rs:54-57 | without parameters the endpoint is `0.0.0.0:9000` |
| Prometheus.EndpointParts | prometheus/src/lib.rs:55-57 | a host parameter replaces only the host part of the endpoint |
| Prometheus.Start | prometheus/src/lib.rs:52-78 | a malformed address, then a failed install, is reported with host and port and leaves the metrics uninitialised; a failed init is reported with the handle; start succeeds exactly when all three steps succeed, and then holds the initialised tables; start panics exactly when init does |
| Prometheus.OnEventKeepsAligned | prometheus/src/metrics.rs:139-160 | the record callbacks keep the tables tracking the same handles and never lower a counter |
| Prometheus.OnEventUntrackedIgnored | prometheus/src/metrics.rs:135-138 | an event for an untracked handle changes nothing; one for a tracked handle changes a table |

## Left out

- The stream a diagnostic goes to is not modelled. A `log` macro such as `error!`, a `print!` to standard output and a `cerr` write all append to the same log of a member's result.
- Threads, mutexes and lock timing are not modelled. Channels are per-handle queues, and the worker loops run over a finite sequence of timeouts and records. The source loops never exit; the model describes what they have done after the events given.
- The metrics `thread_refresh`, `update_records_stats`, the floating-point gauges and the sleeps are left out. Nothing in them changes the tables.
- `listener_configure` in the Prometheus listener is left out. It stores its arguments with the host and always succeeds, and nothing in the model reads them.
- The embedded Python and Lua interpreters are parameters:
  - whether an environment could be created;
  - whether code compiled;
  - the verdict on each call.
  The interpreters' own panics (`unwrap` on `from_code_bound` and `getattr`) are left out. So are `lua_env.rs`, which wraps mlua, and the Lua `torustiq_send`.
- rdkafka is replaced by its reported outcome. This covers the producer's start error and the produce error. `exit(1)` and `poll` in producer.cpp are left out, as are `KafkaProducer::new` and the asynchronous send in the Rust module.
- `fs::read_to_string`, `SocketAddrV4::parse`, the exporter install and `bytes_to_string_safe` are parameters.
- The host-side helpers `get_param`, `get_params` and `set/get_step_configuration` are a map keyed by handle.
- Rust `HashMap` iteration order is a parameter listing each key once.
- Unsafe memory ownership is left out: `Vec::from_raw_parts`, freeing records, leaked error strings, and the dangling `c_str()` of a temporary in main.cpp.
- In lib.cpp, calling process_record before start dereferences a null `PRODUCER`. The model treats the produce outcome as given and does not model that undefined behaviour.
- In the transformation module, the worker is spawned before the step is inserted (torustiq-transform-python/src/lib.rs:80-90). A worker that looks its step up before the insert finds nothing; the model assumes the insert has happened.
- In the Python module, a source step's worker holds the receiver until `run` returns. After that, sending panics. The model keeps the receiver alive for as long as the worker exists.
- In the transformation module, a transformation or destination step's worker owns the receiving half of the channel, and `rx` is dropped when the worker's closure ends, for instance after the interpreter set-up fails; `sender.send(in_record).unwrap()` then panics (torustiq-transform-python/src/lib.rs:80-85, 148). TransformPython.ProcessRecord does not model that panic: it assumes the worker is alive and always queues the record.
- The Python module's `thread_python_env` and the interpreter set-up around the routines are left out.
- Metrics.Inc: counters are unbounded, so the `usize` overflow of `num += 1` and `size_bytes += len` is not modelled.
- Lock poisoning after a panic is modelled only for the three locks that `init` checks. The `unwrap` on a poisoned lock in the increment functions and the process callbacks is left out.
- torustiq-source-http and torustiq-destination-stdout are not part of this model.

## Notes on the sources

- The `replace_all` in kafka_cpp/src/producer.cpp:14-23 is a verbatim copy of kafka_cpp/src/utils/strings.cpp:7-16. Both are modelled by `Strings.ReplaceAll`. Rust's `str::replace`, used at kafka/src/kafka_producer.rs:37 and in rendering, is the same function, `Strings.ReplaceAllSpec`.
- kafka_cpp/src/producer.cpp is an older revision than kafka_cpp/src/producer.hpp:25-28, which lib.cpp compiles against. In producer.cpp, `start` returns nothing and `produce` sends only the buffer to a fixed topic. The model follows the header: `start` and `produce` report an optional error, and the message carries topic, key and headers.
- The C++ `begins_with` and `strip_prefix` are declared in kafka_cpp/src/utils/strings.hpp:10-12 and defined in the shared utilities outside these modules. They are modelled as a prefix test and prefix removal, as in the Rust module.
- On a second start of a Python step, the code reports "Step  '<h>' has no registered receiver", with two spaces. It does not report a distinct already-claimed error. The model uses the code's message.
- The lib.rs and threads.rs of the Lua module are two revisions. lib.rs logs an execution failure as "An error occurred in Lua code: " in front of the message from `exec_code`; threads.rs logs it as "An error occurred in Lua sender code: ". Both are modelled.
- Two record helpers of the shared library are not part of this model; their meaning is assumed. `Record::get_metadata_as_hashmap` (kafka/src/lib.rs:95) is taken to build the map pair by pair, the last pair of a name winning, as the C++ loop at kafka_cpp/src/lib.cpp:138-143 does (`Metadata.MetadataMap`). `Record::from_std_types` (python/src/py_record.rs:56) is taken to make one pair per map entry in the map's iteration order, as the transformation module's own conversion at torustiq-transform-python/src/py_record.rs:50-58 does (`PyRecords.IntoRecord`). `KafkaRust.ProcessRecord`, `PyEnv.Send` and the record round trips rest on these.
- The step kinds are Source, Transformation and Destination. A metrics listener is a module kind of its own, not a step kind.
