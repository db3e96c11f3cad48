/**
 * The Prometheus listener module: start reads the listen address from its
 * parameters, installs the HTTP exporter and initialises the metrics
 * tables; the three record callbacks route each record to one table.
 * Parsing the address and installing the exporter are parameters.
 */
module Prometheus {
  import opened Wrappers
  import opened Typedefs
  import opened Strings
  import opened Params
  import opened Metadata
  import opened Metrics

  const DefaultHost: string := "0.0.0.0"
  const DefaultPort: string := "9000"

  /** The host and port parameters, or their defaults. */
  function HostPort(store: ParamStore, h: Handle): (r: (string, string))
    ensures r.0 == GetParam(store, h, "listen.host").GetOr(DefaultHost)
    ensures r.1 == GetParam(store, h, "port").GetOr(DefaultPort)
  {
    var params := GetParams(store, h).GetOr(map[]);
    (Get(params, "listen.host").GetOr(DefaultHost), Get(params, "port").GetOr(DefaultPort))
  }

  /** The endpoint `host:port` the exporter listens on. */
  function Endpoint(store: ParamStore, h: Handle): string {
    HostPort(store, h).0 + ":" + HostPort(store, h).1
  }

  /** Without parameters the exporter listens on every interface, port 9000. */
  lemma DefaultEndpoint(store: ParamStore, h: Handle)
    requires h !in store
    ensures Endpoint(store, h) == "0.0.0.0:9000"
  {
  }

  /** Each parameter present replaces its default and leaves the other part alone. */
  lemma EndpointParts(store: ParamStore, h: Handle, host: string, port: string)
    requires GetParam(store, h, "listen.host") == Some(host)
    requires GetParam(store, h, "port").None?
    ensures Endpoint(store, h) == host + ":9000"
  {
  }

  /** The start error for an address the exporter cannot parse. */
  function BadAddressError(host: string, port: string, e: string): string {
    "Failed to format an endpoint address from host '" + host + "' and port '" + port + "': " + e
  }

  /** The start error for an exporter that cannot listen. */
  function ListenError(host: string, port: string, e: string): string {
    "Cannot listen a socket on host '" + host + "' and port '" + port + "': " + e
  }

  /** The start error for tables that cannot be initialised. */
  function InitError(h: Handle, e: string): string {
    "Failed to init metrics for handle '" + NatToDecimal(h) + "': " + e
  }

  /** The external steps of start: parsing the address and installing the exporter, `Some(e)` on failure. */
  datatype Exporter = Exporter(parseError: string -> Option<string>, installError: Option<string>)

  /**
   * start: a malformed address or a failed install is reported with the host
   * and port; otherwise the tables are initialised, and a failed init is
   * reported with the handle. The refresh thread is then spawned.
   */
  function Start(t: Tables, store: ParamStore, h: Handle, x: Exporter, locks: LockErrors,
                 keyOrder: seq<string>, stepOrder: seq<string>): (r: Call<Tables, StartResult>)
    requires IsEnumeration(keyOrder, StepConfig(store, h).Keys)
    requires ParseSteps(StepConfig(store, h), keyOrder).Some? ==>
               IsEnumeration(stepOrder, ParseSteps(StepConfig(store, h), keyOrder).value.Keys)
    ensures var (host, port) := HostPort(store, h);
            x.parseError(host + ":" + port).Some? ==>
              r == Returns(t, StartErrorMisc(BadAddressError(host, port, x.parseError(host + ":" + port).value)))
    ensures var (host, port) := HostPort(store, h);
            x.parseError(host + ":" + port).None? && x.installError.Some? ==>
              r == Returns(t, StartErrorMisc(ListenError(host, port, x.installError.value)))
    ensures var init := Init(t, store, h, locks, keyOrder, stepOrder);
            var listening := x.parseError(Endpoint(store, h)).None? && x.installError.None?;
            && (listening && init.Returns? && init.result.Err? ==>
                  r == Returns(t, StartErrorMisc(InitError(h, init.result.error))))
            && (r.Returns? && r.result == StartOk ==> listening && init == Returns(r.state, Ok(())))
            && (listening && init.Returns? && init.result.Ok? ==> r == Returns(init.state, StartOk))
            && (r.Panics? <==> listening && init.Panics?)
    ensures r.Returns? && r.result != StartOk ==> r.state == t
  {
    var (host, port) := HostPort(store, h);
    var endpoint := host + ":" + port;
    if x.parseError(endpoint).Some? then
      Returns(t, StartErrorMisc(BadAddressError(host, port, x.parseError(endpoint).value)))
    else if x.installError.Some? then
      Returns(t, StartErrorMisc(ListenError(host, port, x.installError.value)))
    else
      match Init(t, store, h, locks, keyOrder, stepOrder)
      case Panics(reason) => Panics(reason)
      case Returns(t', Err(e)) =>
        Returns(t, StartErrorMisc(InitError(h, e)))
      case Returns(t', Ok(_)) => Returns(t', StartOk)
  }

  /** A record event reported to the listener, with the step handle and the record. */
  datatype Event =
    | RecordReceived(h: Handle, rec: Record)
    | SendFailure(h: Handle, rec: Record)
    | SendSuccess(h: Handle, rec: Record)

  /** A received record counts in MSG_IN, a failed send in ERRORS_NUM, a successful send in MSG_OUT. */
  function OnEvent(t: Tables, e: Event): (r: Tables)
    ensures e.RecordReceived? ==> r == t.(msgIn := Inc(t.msgIn, e.h, |e.rec.content|))
    ensures e.SendFailure? ==> r == t.(errors := Inc(t.errors, e.h, |e.rec.content|))
    ensures e.SendSuccess? ==> r == t.(msgOut := Inc(t.msgOut, e.h, |e.rec.content|))
  {
    match e
    case RecordReceived(h, rec) => t.(msgIn := Inc(t.msgIn, h, |rec.content|))
    case SendFailure(h, rec) => t.(errors := Inc(t.errors, h, |rec.content|))
    case SendSuccess(h, rec) => t.(msgOut := Inc(t.msgOut, h, |rec.content|))
  }

  /** The record events leave the three tables tracking the same handles, and never lower a counter. */
  lemma OnEventKeepsAligned(t: Tables, e: Event)
    requires Aligned(t)
    ensures Aligned(OnEvent(t, e))
    ensures forall h :: h in t.msgIn ==> OnEvent(t, e).msgIn[h].num >= t.msgIn[h].num
    ensures forall h :: h in t.msgOut ==> OnEvent(t, e).msgOut[h].num >= t.msgOut[h].num
    ensures forall h :: h in t.errors ==> OnEvent(t, e).errors[h].num >= t.errors[h].num
  {
  }

  /** Exactly one table changes per event, and only for a tracked handle. */
  lemma OnEventUntrackedIgnored(t: Tables, e: Event)
    requires Aligned(t)
    ensures e.h !in t.msgIn ==> OnEvent(t, e) == t
    ensures e.h in t.msgIn ==> OnEvent(t, e) != t
  {
    if e.h in t.msgIn {
      match e
      case RecordReceived(h, rec) => assert OnEvent(t, e).msgIn[h].num != t.msgIn[h].num;
      case SendFailure(h, rec) => assert OnEvent(t, e).errors[h].num != t.errors[h].num;
      case SendSuccess(h, rec) => assert OnEvent(t, e).msgOut[h].num != t.msgOut[h].num;
    }
  }
}
