/** How `serve` stacks its decorators around a transport handler, and which calls get counted. */
module LoadStack {
  const REFLECTION_PREFIX: string := "/grpc.reflection."

  // `allowed` is the decision of the intrusion engine for the call.
  datatype Request = HttpRequest(allowed: bool) | GrpcRequest(rpc: string, allowed: bool)

  datatype Handler =
    | Service
    | Reflection
    | LoadMonitor(inner: Handler)
    | Composite(primary: Handler, reflection: Handler)
    | IntrusionGuard(inner: Handler)

  // Which optional decorators are switched on; the load monitor is on whenever counters exist.
  datatype Wiring = Wiring(intrusion: bool, grpcReflection: bool)

  predicate StartsWith(s: string, prefix: string) {
    |prefix| <= |s| && s[..|prefix|] == prefix
  }

  predicate ToReflection(req: Request) {
    req.GrpcRequest? && StartsWith(req.rpc, REFLECTION_PREFIX)
  }

  // `CompositeGrpcIngress::route`
  function Route(primary: Handler, reflection: Handler, req: Request): Handler {
    if ToReflection(req) then reflection else primary
  }

  function HttpStack(w: Wiring): Handler {
    var monitored := LoadMonitor(Service);
    if w.intrusion then IntrusionGuard(monitored) else monitored
  }

  function GrpcStack(w: Wiring): Handler {
    var monitored := LoadMonitor(Service);
    var routed := if w.grpcReflection then Composite(monitored, Reflection) else monitored;
    if w.intrusion then IntrusionGuard(routed) else routed
  }

  function Stack(w: Wiring, req: Request): Handler {
    if req.HttpRequest? then HttpStack(w) else GrpcStack(w)
  }

  // The handlers a call passes, outermost first; a rejected call stops at the guard.
  function Visited(h: Handler, req: Request): seq<Handler>
    decreases h
  {
    [h] +
    match h
    case Service => []
    case Reflection => []
    case LoadMonitor(inner) => Visited(inner, req)
    case Composite(primary, reflection) => Visited(Route(primary, reflection, req), req)
    case IntrusionGuard(inner) => if req.allowed then Visited(inner, req) else []
  }

  // The call passes a load monitor, so it reaches `on_start`.
  predicate Monitored(w: Wiring, req: Request) {
    exists h :: h in Visited(Stack(w, req), req) && h.LoadMonitor?
  }

  // What counting is for: calls let through and meant for the application.
  predicate ForApplication(w: Wiring, req: Request) {
    && (w.intrusion ==> req.allowed)
    && !(w.grpcReflection && ToReflection(req))
  }

  // A call goes to reflection exactly when it is a gRPC call whose method begins that way.
  lemma {:induction false} ToReflectionIff(req: Request, primary: Handler, reflection: Handler)
    ensures ToReflection(req) <==> req.GrpcRequest? && exists rest :: req.rpc == "/grpc.reflection." + rest
    ensures Route(primary, reflection, req) == if ToReflection(req) then reflection else primary
  {
    var prefix := "/grpc.reflection.";
    if ToReflection(req) {
      assert req.rpc == prefix + req.rpc[|prefix|..];
    }
    if req.GrpcRequest? {
      forall rest | req.rpc == prefix + rest ensures ToReflection(req) {
        assert req.rpc[..|prefix|] == prefix;
      }
    }
  }

  lemma {:induction false} MonitoredIffForApplication(w: Wiring, req: Request)
    ensures Monitored(w, req) <==> ForApplication(w, req)
  {
    var m := LoadMonitor(Service);
    assert Visited(Service, req) == [Service];
    assert Visited(m, req) == [m, Service];
    assert Visited(Reflection, req) == [Reflection];
    var c := Composite(m, Reflection);
    assert Visited(c, req) == if ToReflection(req) then [c, Reflection] else [c, m, Service];
    var top := Stack(w, req);
    if w.intrusion {
      assert Visited(top, req) == [top] + if req.allowed then Visited(top.inner, req) else [];
    }
    if ForApplication(w, req) {
      var vs := Visited(top, req);
      assert m in vs;
    }
  }
}
