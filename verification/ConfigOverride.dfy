/** The runtime configuration and the partial overlays laid over it. */
module ConfigOverrides {
  import opened Wrappers

  // A nested record of another crate (TLS, JWT, egress, metrics, ...), kept as its own text.
  type Section = string

  datatype RuntimeConfig = RuntimeConfig(
    serviceName: string, httpBind: string, grpcBind: string, shutdownTimeoutSecs: U64,
    systemdNotify: bool, tenantId: Option<string>,
    httpTls: Option<Section>, grpcTls: Option<Section>, httpAuth: Option<Section>,
    grpcAllowUnauthenticated: bool, egressHttp: Option<Section>, egressGrpc: Option<Section>,
    services: map<string, Section>, grpcReflection: bool, metrics: Option<Section>,
    metricsBackend: Option<Section>, tracerBackend: Option<Section>, logBackend: Option<Section>,
    autoscale: Option<Section>, observability: Option<Section>, deployDir: Option<string>,
    intrusion: Option<Section>)

  const DEFAULT_CONFIG := RuntimeConfig(
    "swe-edge", "0.0.0.0:8080", "0.0.0.0:50051", 30, false, None, None, None, None, false,
    None, None, map[], false, None, None, None, None, None, None, None, None)

  datatype ConfigOverride = ConfigOverride(
    serviceName: Option<string>, httpBind: Option<string>, grpcBind: Option<string>,
    shutdownTimeoutSecs: Option<U64>, systemdNotify: Option<bool>, tenantId: Option<string>,
    httpTls: Option<Section>, grpcTls: Option<Section>, httpAuth: Option<Section>,
    grpcAllowUnauthenticated: Option<bool>, egressHttp: Option<Section>, egressGrpc: Option<Section>,
    grpcReflection: Option<bool>, metrics: Option<Section>, autoscale: Option<Section>,
    observability: Option<Section>)

  const NO_OVERRIDE := ConfigOverride(
    None, None, None, None, None, None, None, None, None, None, None, None, None, None, None, None)

  // ---- Fields as names, so that a law can speak of all sixteen at once ----

  datatype Field =
    | ServiceName | HttpBind | GrpcBind | ShutdownTimeoutSecs | SystemdNotify | TenantId
    | HttpTls | GrpcTls | HttpAuth | GrpcAllowUnauthenticated | EgressHttp | EgressGrpc
    | GrpcReflection | Metrics | Autoscale | Observability

  datatype Value = Text(text: string) | Number(number: U64) | Flag(flag: bool)

  function TextOf(o: Option<string>): Option<Value> {
    if o.Some? then Some(Text(o.value)) else None
  }

  function FlagOf(o: Option<bool>): Option<Value> {
    if o.Some? then Some(Flag(o.value)) else None
  }

  // The value of a field; None for an optional section that is absent.
  function Get(c: RuntimeConfig, f: Field): Option<Value> {
    match f
    case ServiceName => Some(Text(c.serviceName))
    case HttpBind => Some(Text(c.httpBind))
    case GrpcBind => Some(Text(c.grpcBind))
    case ShutdownTimeoutSecs => Some(Number(c.shutdownTimeoutSecs))
    case SystemdNotify => Some(Flag(c.systemdNotify))
    case TenantId => TextOf(c.tenantId)
    case HttpTls => TextOf(c.httpTls)
    case GrpcTls => TextOf(c.grpcTls)
    case HttpAuth => TextOf(c.httpAuth)
    case GrpcAllowUnauthenticated => Some(Flag(c.grpcAllowUnauthenticated))
    case EgressHttp => TextOf(c.egressHttp)
    case EgressGrpc => TextOf(c.egressGrpc)
    case GrpcReflection => Some(Flag(c.grpcReflection))
    case Metrics => TextOf(c.metrics)
    case Autoscale => TextOf(c.autoscale)
    case Observability => TextOf(c.observability)
  }

  // What an overlay sets a field to. An empty tenant id sets nothing.
  function Setting(o: ConfigOverride, f: Field): Option<Value> {
    match f
    case ServiceName => TextOf(o.serviceName)
    case HttpBind => TextOf(o.httpBind)
    case GrpcBind => TextOf(o.grpcBind)
    case ShutdownTimeoutSecs => if o.shutdownTimeoutSecs.Some? then Some(Number(o.shutdownTimeoutSecs.value)) else None
    case SystemdNotify => FlagOf(o.systemdNotify)
    case TenantId => if o.tenantId == Some("") then None else TextOf(o.tenantId)
    case HttpTls => TextOf(o.httpTls)
    case GrpcTls => TextOf(o.grpcTls)
    case HttpAuth => TextOf(o.httpAuth)
    case GrpcAllowUnauthenticated => FlagOf(o.grpcAllowUnauthenticated)
    case EgressHttp => TextOf(o.egressHttp)
    case EgressGrpc => TextOf(o.egressGrpc)
    case GrpcReflection => FlagOf(o.grpcReflection)
    case Metrics => TextOf(o.metrics)
    case Autoscale => TextOf(o.autoscale)
    case Observability => TextOf(o.observability)
  }

  // The fields no overlay can reach.
  function Untouched(c: RuntimeConfig)
    : (map<string, Section>, Option<Section>, Option<Section>, Option<Section>, Option<string>, Option<Section>)
  {
    (c.services, c.metricsBackend, c.tracerBackend, c.logBackend, c.deployDir, c.intrusion)
  }

  function Or<T>(first: Option<T>, second: Option<T>): Option<T> {
    if first.Some? then first else second
  }

  function Overlaid(o: ConfigOverride, c: RuntimeConfig): RuntimeConfig {
    RuntimeConfig(
      o.serviceName.GetOr(c.serviceName), o.httpBind.GetOr(c.httpBind), o.grpcBind.GetOr(c.grpcBind),
      o.shutdownTimeoutSecs.GetOr(c.shutdownTimeoutSecs), o.systemdNotify.GetOr(c.systemdNotify),
      if o.tenantId == Some("") then c.tenantId else Or(o.tenantId, c.tenantId),
      Or(o.httpTls, c.httpTls), Or(o.grpcTls, c.grpcTls), Or(o.httpAuth, c.httpAuth),
      o.grpcAllowUnauthenticated.GetOr(c.grpcAllowUnauthenticated),
      Or(o.egressHttp, c.egressHttp), Or(o.egressGrpc, c.egressGrpc), c.services,
      o.grpcReflection.GetOr(c.grpcReflection), Or(o.metrics, c.metrics),
      c.metricsBackend, c.tracerBackend, c.logBackend,
      Or(o.autoscale, c.autoscale), Or(o.observability, c.observability), c.deployDir, c.intrusion)
  }

  // One statement of `apply_to`: a set field is assigned, an unset one is left alone.
  method Assign<T>(given: Option<T>, current: T) returns (v: T)
    ensures v == given.GetOr(current)
  {
    v := current;
    if given.Some? {
      v := given.value;
    }
  }

  // The same for an optional field, which is assigned with `Some` around the value.
  method AssignOption<T>(given: Option<T>, current: Option<T>) returns (v: Option<T>)
    ensures v == Or(given, current)
  {
    v := current;
    if given.Some? {
      v := Some(given.value);
    }
  }

  // `ConfigOverride::apply_to`: the fields of `base`, assigned one after the other.
  method ApplyTo(o: ConfigOverride, base: RuntimeConfig) returns (c: RuntimeConfig)
    ensures c == Overlaid(o, base)
  {
    var serviceName := Assign(o.serviceName, base.serviceName);
    var httpBind := Assign(o.httpBind, base.httpBind);
    var grpcBind := Assign(o.grpcBind, base.grpcBind);
    var shutdownTimeoutSecs := Assign(o.shutdownTimeoutSecs, base.shutdownTimeoutSecs);
    var systemdNotify := Assign(o.systemdNotify, base.systemdNotify);
    var tenantId := base.tenantId;
    if o.tenantId.Some? {
      if o.tenantId.value != "" {
        tenantId := o.tenantId;
      }
    }
    var httpTls := AssignOption(o.httpTls, base.httpTls);
    var grpcTls := AssignOption(o.grpcTls, base.grpcTls);
    var httpAuth := AssignOption(o.httpAuth, base.httpAuth);
    var grpcAllowUnauthenticated := Assign(o.grpcAllowUnauthenticated, base.grpcAllowUnauthenticated);
    var egressHttp := AssignOption(o.egressHttp, base.egressHttp);
    var egressGrpc := AssignOption(o.egressGrpc, base.egressGrpc);
    var grpcReflection := Assign(o.grpcReflection, base.grpcReflection);
    var metrics := AssignOption(o.metrics, base.metrics);
    var autoscale := AssignOption(o.autoscale, base.autoscale);
    var observability := AssignOption(o.observability, base.observability);
    c := RuntimeConfig(
      serviceName, httpBind, grpcBind, shutdownTimeoutSecs, systemdNotify, tenantId,
      httpTls, grpcTls, httpAuth, grpcAllowUnauthenticated, egressHttp, egressGrpc, base.services,
      grpcReflection, metrics, base.metricsBackend, base.tracerBackend, base.logBackend,
      autoscale, observability, base.deployDir, base.intrusion);
  }

  lemma {:induction false} OverlaidField(o: ConfigOverride, c: RuntimeConfig, f: Field)
    ensures Get(Overlaid(o, c), f) == Or(Setting(o, f), Get(c, f))
    ensures Untouched(Overlaid(o, c)) == Untouched(c)
  {}

  // An overlay that sets every field to that of a configuration, name by name.
  function CopyOf(c: RuntimeConfig, tenant: string): ConfigOverride {
    ConfigOverride(
      serviceName := Some(c.serviceName), httpBind := Some(c.httpBind), grpcBind := Some(c.grpcBind),
      shutdownTimeoutSecs := Some(c.shutdownTimeoutSecs), systemdNotify := Some(c.systemdNotify),
      tenantId := Some(tenant), httpTls := c.httpTls, grpcTls := c.grpcTls, httpAuth := c.httpAuth,
      grpcAllowUnauthenticated := Some(c.grpcAllowUnauthenticated), egressHttp := c.egressHttp,
      egressGrpc := c.egressGrpc, grpcReflection := Some(c.grpcReflection), metrics := c.metrics,
      autoscale := c.autoscale, observability := c.observability)
  }

  // Laid over any other configuration it gives all those fields back, wherever a section is
  // present on the one side or absent on the other; an empty tenant id leaves the other's.
  lemma {:induction false} CopyRestores(c: RuntimeConfig, d: RuntimeConfig, tenant: string)
    ensures Overlaid(CopyOf(c, tenant), d) ==
      d.(serviceName := c.serviceName, httpBind := c.httpBind, grpcBind := c.grpcBind,
         shutdownTimeoutSecs := c.shutdownTimeoutSecs, systemdNotify := c.systemdNotify,
         tenantId := (if tenant == "" then d.tenantId else Some(tenant)),
         httpTls := (if c.httpTls.Some? then c.httpTls else d.httpTls),
         grpcTls := (if c.grpcTls.Some? then c.grpcTls else d.grpcTls),
         httpAuth := (if c.httpAuth.Some? then c.httpAuth else d.httpAuth),
         grpcAllowUnauthenticated := c.grpcAllowUnauthenticated,
         egressHttp := (if c.egressHttp.Some? then c.egressHttp else d.egressHttp),
         egressGrpc := (if c.egressGrpc.Some? then c.egressGrpc else d.egressGrpc),
         grpcReflection := c.grpcReflection,
         metrics := (if c.metrics.Some? then c.metrics else d.metrics),
         autoscale := (if c.autoscale.Some? then c.autoscale else d.autoscale),
         observability := (if c.observability.Some? then c.observability else d.observability))
  {}

  // ---- Chains of overlays ----

  // The overlays applied in order, lowest priority first.
  function Chain(c: RuntimeConfig, os: seq<ConfigOverride>): RuntimeConfig {
    if os == [] then c else Overlaid(os[|os| - 1], Chain(c, os[..|os| - 1]))
  }

  // The setting with the highest priority.
  function LastSetting(os: seq<ConfigOverride>, f: Field): Option<Value> {
    if os == [] then None else Or(Setting(os[|os| - 1], f), LastSetting(os[..|os| - 1], f))
  }

  lemma {:induction false} ChainField(c: RuntimeConfig, os: seq<ConfigOverride>, f: Field)
    ensures Get(Chain(c, os), f) == Or(LastSetting(os, f), Get(c, f))
    ensures Untouched(Chain(c, os)) == Untouched(c)
  {
    if os == [] {
    } else {
      ChainField(c, os[..|os| - 1], f);
      OverlaidField(os[|os| - 1], Chain(c, os[..|os| - 1]), f);
    }
  }

  // One overlay that does the work of `low` and then `high`.
  function Combined(low: ConfigOverride, high: ConfigOverride): ConfigOverride {
    ConfigOverride(
      Or(high.serviceName, low.serviceName), Or(high.httpBind, low.httpBind), Or(high.grpcBind, low.grpcBind),
      Or(high.shutdownTimeoutSecs, low.shutdownTimeoutSecs), Or(high.systemdNotify, low.systemdNotify),
      if high.tenantId == Some("") then low.tenantId else Or(high.tenantId, low.tenantId),
      Or(high.httpTls, low.httpTls), Or(high.grpcTls, low.grpcTls), Or(high.httpAuth, low.httpAuth),
      Or(high.grpcAllowUnauthenticated, low.grpcAllowUnauthenticated),
      Or(high.egressHttp, low.egressHttp), Or(high.egressGrpc, low.egressGrpc),
      Or(high.grpcReflection, low.grpcReflection), Or(high.metrics, low.metrics),
      Or(high.autoscale, low.autoscale), Or(high.observability, low.observability))
  }

  function CombinedAll(os: seq<ConfigOverride>): ConfigOverride {
    if os == [] then NO_OVERRIDE else Combined(CombinedAll(os[..|os| - 1]), os[|os| - 1])
  }

  lemma {:induction false} OverlaidTwice(low: ConfigOverride, high: ConfigOverride, c: RuntimeConfig)
    ensures Overlaid(high, Overlaid(low, c)) == Overlaid(Combined(low, high), c)
  {}

  // Any chain is one overlay, over any base.
  lemma {:induction false} ChainIsOneOverlay(c: RuntimeConfig, os: seq<ConfigOverride>)
    ensures Chain(c, os) == Overlaid(CombinedAll(os), c)
  {
    if os == [] {
    } else {
      var low := os[..|os| - 1];
      ChainIsOneOverlay(c, low);
      OverlaidTwice(CombinedAll(low), os[|os| - 1], c);
    }
  }
}
