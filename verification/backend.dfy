/**
 * Backend adapters: each turns a caller's parameter dictionary into the HTTP
 * GET it would issue (base URL plus query parameters) and the column layout of
 * the rows it returns. The request itself and the JSON extraction are not part
 * of this model; the description of the request is where it stops.
 */
module Backend {
  import opened Common

  /** A Python `KeyError` for a connection parameter the caller did not supply. */
  datatype Error = MissingKey(key: string)

  datatype Result<T> = Ok(value: T) | Err(error: Error)

  /** An HTTP GET: base URL and query parameters. */
  datatype Request = Request(url: string, query: map<string, string>)

  /** What an adapter yields: the request it issues and the returned rows' (time, value) columns. */
  datatype Fetch = Fetch(request: Request, timeIndex: nat, valueIndex: nat)

  /** The registered backends, one per `backend_<name>` function. */
  datatype Adapter = InfluxDb | Graphite

  const DefaultProtocol: string := "http"

  /** The dictionary after `if 'protocol' not in params: params['protocol'] = 'http'`. */
  function WithDefaultProtocol(m: map<string, string>): (r: map<string, string>)
    ensures r.Keys == m.Keys + {"protocol"}
    ensures "protocol" in m ==> r["protocol"] == m["protocol"]
    ensures "protocol" !in m ==> r["protocol"] == DefaultProtocol
    ensures forall k :: k in m && k != "protocol" ==> r[k] == m[k]
  {
    if "protocol" in m then m else m["protocol" := DefaultProtocol]
  }

  /** Defaulting the protocol twice is the same as once, and keeps a given protocol. */
  lemma DefaultProtocolIdempotent(m: map<string, string>)
    ensures WithDefaultProtocol(WithDefaultProtocol(m)) == WithDefaultProtocol(m)
    ensures "protocol" in m ==> WithDefaultProtocol(m) == m
  {
  }

  /** The parameters an adapter reads, in the order Python evaluates the lookups. */
  function RequiredKeys(a: Adapter): seq<string> {
    match a
    case InfluxDb => ["protocol", "host", "port", "database", "epoch", "series"]
    case Graphite => ["protocol", "host", "port", "target", "from", "until"]
  }

  /** The path the adapter's endpoint lives at. */
  function Path(a: Adapter): string {
    match a
    case InfluxDb => "/query"
    case Graphite => "/render"
  }

  /** The (timeIndex, valueIndex) layout of the rows the adapter returns. */
  function Indices(a: Adapter): (nat, nat) {
    match a
    case InfluxDb => (0, 1)
    case Graphite => (1, 0)
  }

  /** The query-parameter names the adapter sends. */
  function QueryKeys(a: Adapter): set<string> {
    match a
    case InfluxDb => {"db", "epoch", "q"}
    case Graphite => {"target", "from", "until", "format"}
  }

  const SelectPrefix: string := "select value from "

  /** The first of `keys` absent from `m`, the lookup that raises `KeyError`. */
  function FirstMissing(m: map<string, string>, keys: seq<string>): (k: Option<nat>)
    ensures k.None? <==> forall i :: 0 <= i < |keys| ==> keys[i] in m
    ensures k.Some? ==>
              && k.value < |keys| && keys[k.value] !in m
              && forall i :: 0 <= i < k.value ==> keys[i] in m
  {
    if keys == [] then None
    else if keys[0] !in m then Some(0)
    else match FirstMissing(m, keys[1..])
      case None => None
      case Some(i) => Some(i + 1)
  }

  /** `"{protocol}://{host}:{port}" + path`. */
  function Url(protocol: string, host: string, port: string, path: string): string {
    protocol + "://" + host + ":" + port + path
  }

  /** Whether every required parameter of the adapter is present. */
  predicate HasRequired(a: Adapter, m: map<string, string>) {
    forall k :: k in RequiredKeys(a) ==> k in m
  }

  /** The InfluxDB query parameters: database, epoch format and the select statement. */
  function InfluxQuery(m: map<string, string>): (q: map<string, string>)
    requires "database" in m && "epoch" in m && "series" in m
    ensures q.Keys == QueryKeys(InfluxDb)
  {
    map["db" := m["database"], "epoch" := m["epoch"], "q" := SelectPrefix + m["series"]]
  }

  /** The Graphite query parameters: target, time range and the JSON format. */
  function GraphiteQuery(m: map<string, string>): (q: map<string, string>)
    requires "target" in m && "from" in m && "until" in m
    ensures q.Keys == QueryKeys(Graphite)
  {
    map["target" := m["target"], "from" := m["from"], "until" := m["until"], "format" := "json"]
  }

  /** The request and layout an adapter builds once all its parameters are present. */
  function Build(a: Adapter, m: map<string, string>): (f: Fetch)
    requires HasRequired(a, m)
    ensures (f.timeIndex, f.valueIndex) == Indices(a)
    ensures f.request.query.Keys == QueryKeys(a)
  {
    var keys := RequiredKeys(a);
    assert keys[0] in keys && keys[1] in keys && keys[2] in keys;
    var url := Url(m["protocol"], m["host"], m["port"], Path(a));
    match a
    case InfluxDb =>
      assert keys[3] in keys && keys[4] in keys && keys[5] in keys;
      Fetch(Request(url, InfluxQuery(m)), 0, 1)
    case Graphite =>
      assert keys[3] in keys && keys[4] in keys && keys[5] in keys;
      Fetch(Request(url, GraphiteQuery(m)), 1, 0)
  }

  /**
   * The request an adapter builds from its (already protocol-defaulted)
   * parameters: `backend_influxdb` / `backend_graphite` up to `requests.get`.
   */
  function AdapterRequest(a: Adapter, m: map<string, string>): (r: Result<Fetch>)
    ensures r.Ok? <==> HasRequired(a, m)
    ensures r.Err? ==>
              exists i :: && 0 <= i < |RequiredKeys(a)|
                          && r.error == MissingKey(RequiredKeys(a)[i]) && RequiredKeys(a)[i] !in m
                          && forall j :: 0 <= j < i ==> RequiredKeys(a)[j] in m
    ensures r.Ok? ==> r.value == Build(a, m)
  {
    match FirstMissing(m, RequiredKeys(a))
    case Some(i) => Err(MissingKey(RequiredKeys(a)[i]))
    case None =>
      assert HasRequired(a, m) by {
        forall k | k in RequiredKeys(a) ensures k in m {
          var i :| 0 <= i < |RequiredKeys(a)| && RequiredKeys(a)[i] == k;
        }
      }
      Ok(Build(a, m))
  }

  /** The InfluxDB query names the requested series and nothing else. */
  lemma InfluxQueryNamesSeries(m: map<string, string>)
    requires AdapterRequest(InfluxDb, m).Ok?
    ensures var q := AdapterRequest(InfluxDb, m).value.request.query;
      && q["db"] == m["database"] && q["epoch"] == m["epoch"]
      && |q["q"]| >= |SelectPrefix| && q["q"][..|SelectPrefix|] == SelectPrefix
      && q["q"][|SelectPrefix|..] == m["series"]
  {
  }

  /** The Graphite request asks for JSON over the caller's target and time range. */
  lemma GraphiteQueryRange(m: map<string, string>)
    requires AdapterRequest(Graphite, m).Ok?
    ensures var q := AdapterRequest(Graphite, m).value.request.query;
      && q["target"] == m["target"] && q["from"] == m["from"]
      && q["until"] == m["until"] && q["format"] == "json"
  {
  }

  // ---------------------------------------------------------------- URL parsing

  /** The parts of `protocol://host:port/path`. */
  datatype Endpoint = Endpoint(protocol: string, host: string, port: string, path: string)

  /** Splits at the first `c`: the text before it and the text after it. */
  function SplitAt(s: string, c: char): (r: Option<(string, string)>)
    ensures r.Some? ==> s == r.value.0 + [c] + r.value.1 && c !in r.value.0
    ensures r.None? ==> c !in s
  {
    if s == [] then None
    else if s[0] == c then Some(([], s[1..]))
    else match SplitAt(s[1..], c)
      case None => None
      case Some((before, after)) => Some(([s[0]] + before, after))
  }

  lemma {:induction false} SplitAtJoin(a: string, c: char, b: string)
    requires c !in a
    ensures SplitAt(a + [c] + b, c) == Some((a, b))
  {
    if a != [] {
      assert (a + [c] + b)[1..] == a[1..] + [c] + b;
      SplitAtJoin(a[1..], c, b);
      assert a == [a[0]] + a[1..];
    } else {
      assert a + [c] + b == [c] + b;
    }
  }

  /** Reads `host:port/path` into its three parts. */
  function ParseAuthority(s: string): Option<(string, string, string)> {
    match SplitAt(s, ':')
    case None => None
    case Some((host, rest)) =>
      match SplitAt(rest, '/')
      case None => None
      case Some((port, path)) => Some((host, port, "/" + path))
  }

  /** Reads a `protocol://host:port/path` URL back into its parts. */
  function ParseUrl(url: string): Option<Endpoint> {
    match SplitAt(url, ':')
    case None => None
    case Some((protocol, rest)) =>
      if |rest| < 2 || rest[..2] != "//" then None
      else match ParseAuthority(rest[2..])
        case None => None
        case Some((host, port, path)) => Some(Endpoint(protocol, host, port, path))
  }

  lemma AuthorityRoundTrip(host: string, port: string, tail: string)
    requires ':' !in host && '/' !in port
    ensures ParseAuthority(host + ":" + port + "/" + tail) == Some((host, port, "/" + tail))
  {
    var rest := port + ['/'] + tail;
    SplitAtJoin(port, '/', tail);
    assert host + ":" + port + "/" + tail == host + [':'] + rest;
    SplitAtJoin(host, ':', rest);
  }

  /** `protocol://` followed by a parsable authority parses into its parts. */
  lemma SchemeRoundTrip(protocol: string, authority: string)
    requires ':' !in protocol && ParseAuthority(authority).Some?
    ensures var (host, port, path) := ParseAuthority(authority).value;
      ParseUrl(protocol + [':'] + ("//" + authority)) == Some(Endpoint(protocol, host, port, path))
  {
    var rest := "//" + authority;
    SplitAtJoin(protocol, ':', rest);
    assert rest[..2] == "//" && rest[2..] == authority;
  }

  /**
   * The URL an adapter builds determines the protocol, host and port it was
   * given, as long as those contain no separator of their own.
   */
  lemma UrlRoundTrip(e: Endpoint)
    requires ':' !in e.protocol && ':' !in e.host && '/' !in e.port
    requires |e.path| > 0 && e.path[0] == '/'
    ensures ParseUrl(Url(e.protocol, e.host, e.port, e.path)) == Some(e)
  {
    var tail := e.path[1..];
    assert e.path == "/" + tail;
    var authority := e.host + ":" + e.port + "/" + tail;
    AuthorityRoundTrip(e.host, e.port, tail);
    assert Url(e.protocol, e.host, e.port, e.path) == e.protocol + [':'] + ("//" + authority);
    SchemeRoundTrip(e.protocol, authority);
  }

  /** A built request's URL reads back as the caller's protocol, host, port and the adapter's path. */
  lemma RequestUrlRoundTrip(a: Adapter, m: map<string, string>)
    requires AdapterRequest(a, m).Ok?
    requires "protocol" in m && "host" in m && "port" in m
    requires ':' !in m["protocol"] && ':' !in m["host"] && '/' !in m["port"]
    ensures ParseUrl(AdapterRequest(a, m).value.request.url)
      == Some(Endpoint(m["protocol"], m["host"], m["port"], Path(a)))
  {
    UrlRoundTrip(Endpoint(m["protocol"], m["host"], m["port"], Path(a)));
  }

  // ---------------------------------------------------------------- dispatch

  /** `_pull_backend`'s name test: the adapter a name selects, if any. */
  function AdapterFor(name: string): (a: Option<Adapter>)
    ensures a == Some(InfluxDb) <==> name == "influxdb"
    ensures a == Some(Graphite) <==> name == "graphite"
  {
    if name == "influxdb" then Some(InfluxDb)
    else if name == "graphite" then Some(Graphite)
    else None
  }

  /** The caller's parameter dictionary, which the adapters update in place. */
  class ParamDict {
    var entries: map<string, string>

    constructor (m: map<string, string>)
      ensures entries == m
    {
      entries := m;
    }
  }

  /** Adds `protocol = "http"` to the caller's dictionary when it has no protocol. */
  method SetDefaultProtocol(params: ParamDict)
    modifies params
    ensures params.entries == WithDefaultProtocol(old(params.entries))
  {
    if "protocol" !in params.entries {
      params.entries := params.entries["protocol" := DefaultProtocol];
    }
  }

  /** `backend_influxdb`, up to the network call. */
  method BackendInfluxDb(params: ParamDict) returns (r: Result<Fetch>)
    modifies params
    ensures params.entries == WithDefaultProtocol(old(params.entries))
    ensures r == AdapterRequest(InfluxDb, params.entries)
  {
    SetDefaultProtocol(params);
    r := AdapterRequest(InfluxDb, params.entries);
  }

  /** `backend_graphite`, up to the network call. */
  method BackendGraphite(params: ParamDict) returns (r: Result<Fetch>)
    modifies params
    ensures params.entries == WithDefaultProtocol(old(params.entries))
    ensures r == AdapterRequest(Graphite, params.entries)
  {
    SetDefaultProtocol(params);
    r := AdapterRequest(Graphite, params.entries);
  }

  /**
   * `_pull_backend`: a known name runs its adapter on the caller's dictionary;
   * any other name fetches nothing, leaves the dictionary alone and yields `None`.
   */
  method PullBackend(name: string, params: ParamDict) returns (r: Option<Result<Fetch>>)
    modifies params
    ensures AdapterFor(name).None? ==> r.None? && params.entries == old(params.entries)
    ensures AdapterFor(name).Some? ==>
      && params.entries == WithDefaultProtocol(old(params.entries))
      && r == Some(AdapterRequest(AdapterFor(name).value, params.entries))
  {
    if name == "influxdb" {
      var f := BackendInfluxDb(params);
      r := Some(f);
    } else if name == "graphite" {
      var f := BackendGraphite(params);
      r := Some(f);
    } else {
      r := None;
    }
  }

  // ---------------------------------------------------------------- enumeration

  const AdapterPrefix: string := "backend_"

  predicate HasAdapterPrefix(name: string) {
    |name| >= |AdapterPrefix| && name[..|AdapterPrefix|] == AdapterPrefix
  }

  lemma PrefixedHasPrefix(x: string)
    ensures HasAdapterPrefix(AdapterPrefix + x)
  {
    assert (AdapterPrefix + x)[..|AdapterPrefix|] == AdapterPrefix;
  }

  /** `[x[8:] for x in names if x[:8] == "backend_"]`. */
  function GetBackends(names: seq<string>): (r: seq<string>)
    ensures |r| <= |names|
    ensures forall x :: x in r <==> AdapterPrefix + x in names
  {
    if names == [] then []
    else
      var rest := GetBackends(names[1..]);
      var n := names[0];
      assert forall x :: AdapterPrefix + x in names <==> (AdapterPrefix + x == n || AdapterPrefix + x in names[1..]);
      if HasAdapterPrefix(n) then
        assert forall x :: AdapterPrefix + x == n <==> x == n[|AdapterPrefix|..] by {
          assert n == AdapterPrefix + n[|AdapterPrefix|..];
        }
        [n[|AdapterPrefix|..]] + rest
      else
        assert forall x :: AdapterPrefix + x != n by {
          forall x ensures HasAdapterPrefix(AdapterPrefix + x) {
            PrefixedHasPrefix(x);
          }
        }
        rest
  }

  /** The global names of the backend module that the enumeration scans. */
  const ModuleNames: seq<string> := [
    "__name__", "__doc__", "__package__", "__builtins__", "__file__",
    "requests", "falcon", "json", "AvailableBackends",
    "backend_influxdb", "backend_graphite", "_pull_backend", "get_backends"
  ]

  /** Only the two adapter functions among the module's names start with `b`. */
  lemma OnlyAdaptersStartWithB(i: nat)
    requires i < |ModuleNames| && |ModuleNames[i]| > 0 && ModuleNames[i][0] == 'b'
    ensures i == 9 || i == 10
  {
  }

  /** A module name carries the adapter prefix exactly for the two adapters. */
  lemma PrefixedModuleName(x: string)
    ensures AdapterPrefix + x in ModuleNames <==> x == "influxdb" || x == "graphite"
  {
    var y := AdapterPrefix + x;
    if y in ModuleNames {
      var i :| 0 <= i < |ModuleNames| && ModuleNames[i] == y;
      assert y[0] == 'b';
      OnlyAdaptersStartWithB(i);
      assert x == y[|AdapterPrefix|..];
    }
    if x == "influxdb" {
      assert y == ModuleNames[9];
    }
    if x == "graphite" {
      assert y == ModuleNames[10];
    }
  }

  /** Over the module's own names the enumeration yields exactly the two adapters. */
  lemma BackendsEnumerated()
    ensures forall x :: x in GetBackends(ModuleNames) <==> x in {"influxdb", "graphite"}
  {
    forall x ensures x in GetBackends(ModuleNames) <==> x in {"influxdb", "graphite"} {
      PrefixedModuleName(x);
    }
  }

  /** Every enumerated name dispatches to an adapter, and every dispatching name is enumerated. */
  lemma EnumerationMatchesDispatch(name: string)
    ensures name in GetBackends(ModuleNames) <==> AdapterFor(name).Some?
  {
    BackendsEnumerated();
  }
}
