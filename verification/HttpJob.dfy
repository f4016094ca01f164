/** `DefaultHttpJob`: a router, a handler registry and a health table, written one after the other. */
module HttpJobs {
  import opened Wrappers

  // A handler with the answers of its own `id()` and `pattern()`; `token` is its identity.
  datatype Handler = Handler(token: nat, id: Result<string, string>, pattern: Result<string, string>)

  datatype RegistrationError = RegistrationFailed(pattern: string) | HandlerRejected(reason: string)

  datatype JobError = NoMatch | HandlerUnavailable(id: string)

  // The path router's library: whether a pattern can join a set of patterns, and which of
  // them a path matches.
  datatype Matcher = Matcher(insertable: (set<string>, string) -> bool, at: (set<string>, string) -> Option<string>)

  // What is assumed of it: no pattern twice, and only inserted patterns match.
  ghost predicate Sane(m: Matcher) {
    && (forall ps, p :: p in ps ==> !m.insertable(ps, p))
    && (forall ps, path :: m.at(ps, path).Some? ==> m.at(ps, path).value in ps)
  }

  datatype Tables = Tables(router: map<string, string>, registry: map<string, Handler>, health: map<string, Handler>)

  const EMPTY := Tables(map[], map[], map[])

  // One call of `register_route`; the registry is an overwriting map that may also refuse.
  datatype Registration = Registration(h: Handler, registryAccepts: bool)

  // The handler answers with an id and a pattern, both non-empty.
  predicate Acceptable(h: Handler) {
    h.id.Ok? && h.id.value != "" && h.pattern.Ok? && h.pattern.value != ""
  }

  function Rejection(h: Handler): RegistrationError {
    if h.id.Err? then HandlerRejected(h.id.error)
    else if h.id.value == "" then HandlerRejected("Handler::id() must not be empty")
    else if h.pattern.Err? then HandlerRejected(h.pattern.error)
    else HandlerRejected("Handler::pattern() must not be empty")
  }

  function Registered(m: Matcher, t: Tables, reg: Registration): (Tables, Result<(), RegistrationError>) {
    var h := reg.h;
    if !Acceptable(h) then (t, Err(Rejection(h)))
    else
      var id, pattern := h.id.value, h.pattern.value;
      var checked := t.(health := t.health[id := h]);
      if !reg.registryAccepts then (checked, Err(HandlerRejected("registry")))
      else
        var stored := checked.(registry := t.registry[id := h]);
        if !m.insertable(t.router.Keys, pattern) then (stored, Err(RegistrationFailed(pattern)))
        else (stored.(router := t.router[pattern := id]), Ok(()))
  }

  function Routed(m: Matcher, t: Tables, path: string): Option<string> {
    var p := m.at(t.router.Keys, path);
    if p.Some? && p.value in t.router then Some(t.router[p.value]) else None
  }

  // The handler that executes a request for the path.
  function Dispatched(m: Matcher, t: Tables, path: string): Result<Handler, JobError> {
    var id := Routed(m, t, path);
    if id.None? then Err(NoMatch)
    else if id.value !in t.registry then Err(HandlerUnavailable(id.value))
    else Ok(t.registry[id.value])
  }

  // The answer to a request for the path, from the tables alone.
  ghost predicate Answers(m: Matcher, t: Tables, path: string, r: Result<Handler, JobError>) {
    match m.at(t.router.Keys, path)
    case None => r == Err(NoMatch)
    case Some(p) =>
      if p !in t.router then r == Err(NoMatch)
      else if t.router[p] !in t.registry then r == Err(HandlerUnavailable(t.router[p]))
      else r == Ok(t.registry[t.router[p]])
  }

  // The loop of both jobs' health checks. It stops at the first unhealthy handler; the order of
  // the table does not matter.
  method AllHealthy(handlers: map<string, Handler>, healthy: Handler -> bool) returns (ok: bool)
    ensures ok <==> forall id :: id in handlers ==> healthy(handlers[id])
  {
    var todo := handlers.Keys;
    while todo != {}
      invariant todo <= handlers.Keys
      invariant forall id :: id in handlers.Keys - todo ==> healthy(handlers[id])
      decreases todo
    {
      var id :| id in todo;
      if !healthy(handlers[id]) {
        return false;
      }
      todo := todo - {id};
    }
    ok := true;
  }

  class DefaultHttpJob {
    var router: map<string, string>
    var registry: map<string, Handler>
    var healthHandlers: map<string, Handler>

    ghost function Model(): Tables
      reads this
    {
      Tables(router, registry, healthHandlers)
    }

    constructor ()
      ensures Model() == EMPTY
    {
      router, registry, healthHandlers := map[], map[], map[];
    }

    method RegisterRoute(m: Matcher, h: Handler, registryAccepts: bool)
      returns (r: Result<(), RegistrationError>)
      modifies this
      ensures (Model(), r) == Registered(m, old(Model()), Registration(h, registryAccepts))
    {
      if h.id.Err? {
        return Err(HandlerRejected(h.id.error));
      }
      var id := h.id.value;
      if id == "" {
        return Err(HandlerRejected("Handler::id() must not be empty"));
      }
      if h.pattern.Err? {
        return Err(HandlerRejected(h.pattern.error));
      }
      var pattern := h.pattern.value;
      if pattern == "" {
        return Err(HandlerRejected("Handler::pattern() must not be empty"));
      }
      healthHandlers := healthHandlers[id := h];
      if !registryAccepts {
        return Err(HandlerRejected("registry"));
      }
      registry := registry[id := h];
      if !m.insertable(router.Keys, pattern) {
        return Err(RegistrationFailed(pattern));
      }
      router := router[pattern := id];
      r := Ok(());
    }

    method Run(m: Matcher, path: string) returns (r: Result<Handler, JobError>)
      ensures r == Dispatched(m, Model(), path)
      ensures Answers(m, Model(), path, r)
    {
      var p := m.at(router.Keys, path);
      if p.None? || p.value !in router {
        return Err(NoMatch);
      }
      var id := router[p.value];
      if id !in registry {
        return Err(HandlerUnavailable(id));
      }
      r := Ok(registry[id]);
    }

    method HealthCheck(healthy: Handler -> bool) returns (ok: bool)
      ensures ok <==> forall id :: id in healthHandlers ==> healthy(healthHandlers[id])
    {
      ok := AllHealthy(healthHandlers, healthy);
    }
  }

  // ---- Any sequence of registrations, failed ones included ----

  function After(m: Matcher, regs: seq<Registration>): Tables {
    if regs == [] then EMPTY else Registered(m, After(m, regs[..|regs| - 1]), regs[|regs| - 1]).0
  }

  // Every id the router can give out has a handler in the registry.
  predicate Complete(t: Tables) {
    forall p :: p in t.router ==> t.router[p] in t.registry
  }

  lemma {:induction false} AlwaysComplete(m: Matcher, regs: seq<Registration>)
    ensures Complete(After(m, regs))
  {
    if regs == [] {
    } else {
      AlwaysComplete(m, regs[..|regs| - 1]);
    }
  }

  // So `run` finds a handler for whatever `route` finds.
  lemma {:induction false} NeverUnavailable(m: Matcher, regs: seq<Registration>, path: string)
    ensures var t := After(m, regs);
      && (Dispatched(m, t, path).Err? ==> Dispatched(m, t, path).error == NoMatch)
      && (Dispatched(m, t, path).Ok? <==> Routed(m, t, path).Some?)
  {
    AlwaysComplete(m, regs);
  }

  predicate NeverRefused(regs: seq<Registration>) {
    forall i :: 0 <= i < |regs| ==> regs[i].registryAccepts
  }

  // With a registry that refuses nothing, the handlers dispatched are the ones health-checked.
  lemma {:induction false} HealthChecksWhatRuns(m: Matcher, regs: seq<Registration>)
    requires NeverRefused(regs)
    ensures After(m, regs).health == After(m, regs).registry
    ensures forall path :: Dispatched(m, After(m, regs), path).Ok? ==>
      var id := Routed(m, After(m, regs), path).value;
      id in After(m, regs).health && After(m, regs).health[id] == Dispatched(m, After(m, regs), path).value
  {
    if regs == [] {
    } else {
      HealthChecksWhatRuns(m, regs[..|regs| - 1]);
    }
  }

  // ---- Which handler the tables hold, after any sequence of registrations ----

  predicate Offers(reg: Registration, id: string) {
    Acceptable(reg.h) && reg.h.id.value == id
  }

  // The handler of the last registration that got as far as the health table.
  function LastOffered(regs: seq<Registration>, id: string): Option<Handler> {
    if regs == [] then None
    else if Offers(regs[|regs| - 1], id) then Some(regs[|regs| - 1].h)
    else LastOffered(regs[..|regs| - 1], id)
  }

  // The handler of the last registration that got as far as the registry.
  function LastAccepted(regs: seq<Registration>, id: string): Option<Handler> {
    if regs == [] then None
    else
      var reg := regs[|regs| - 1];
      if Offers(reg, id) && reg.registryAccepts then Some(reg.h) else LastAccepted(regs[..|regs| - 1], id)
  }

  function Lookup(table: map<string, Handler>, id: string): Option<Handler> {
    if id in table then Some(table[id]) else None
  }

  lemma {:induction false} TablesHoldTheLast(m: Matcher, regs: seq<Registration>, id: string)
    ensures Lookup(After(m, regs).health, id) == LastOffered(regs, id)
    ensures Lookup(After(m, regs).registry, id) == LastAccepted(regs, id)
  {
    if regs == [] {
    } else {
      TablesHoldTheLast(m, regs[..|regs| - 1], id);
    }
  }

  // A request runs the last handler accepted for the id its route leads to, whether or not that
  // handler's own registration succeeded.
  lemma {:induction false} LastAcceptedRuns(m: Matcher, regs: seq<Registration>, path: string)
    ensures var id := Routed(m, After(m, regs), path);
      if id.None? then Dispatched(m, After(m, regs), path) == Err(NoMatch)
      else LastAccepted(regs, id.value).Some?
           && Dispatched(m, After(m, regs), path) == Ok(LastAccepted(regs, id.value).value)
  {
    AlwaysComplete(m, regs);
    var id := Routed(m, After(m, regs), path);
    if id.Some? {
      TablesHoldTheLast(m, regs, id.value);
    }
  }

  // The handler last offered for the id is the one last accepted.
  predicate Settled(regs: seq<Registration>, id: string) {
    LastOffered(regs, id) == LastAccepted(regs, id)
  }

  // The handlers health-checked are the ones in the registry exactly when no id was last offered
  // a handler that the registry refused, other than the one it already had.
  lemma {:induction false} TablesAgreeIff(m: Matcher, regs: seq<Registration>)
    ensures After(m, regs).health == After(m, regs).registry <==>
      forall id :: Settled(regs, id)
  {
    var t := After(m, regs);
    if t.health == t.registry {
      forall id ensures Settled(regs, id) {
        TablesHoldTheLast(m, regs, id);
      }
    }
    if forall id :: Settled(regs, id) {
      forall id: string ensures Lookup(t.health, id) == Lookup(t.registry, id) {
        assert Settled(regs, id);
        TablesHoldTheLast(m, regs, id);
      }
      SameTableIff(t.health, t.registry);
    }
  }

  lemma {:induction false} SameTableIff(a: map<string, Handler>, b: map<string, Handler>)
    ensures a == b <==> forall id: string :: Lookup(a, id) == Lookup(b, id)
  {
    if forall id: string :: Lookup(a, id) == Lookup(b, id) {
      forall id: string ensures id in a <==> id in b {
        assert Lookup(a, id) == Lookup(b, id);
      }
      forall id | id in a ensures a[id] == b[id] {
        assert Lookup(a, id) == Lookup(b, id);
      }
    }
  }

  // One registration, from any tables: they agree afterwards exactly when they agreed on the
  // other ids and the registry now holds what was offered.
  lemma {:induction false} TablesPartIff(m: Matcher, t: Tables, reg: Registration)
    ensures var t' := Registered(m, t, reg).0;
      t'.health == t'.registry <==>
        if !Acceptable(reg.h) then t.health == t.registry
        else t.health - {reg.h.id.value} == t.registry - {reg.h.id.value}
             && (reg.registryAccepts || Lookup(t.registry, reg.h.id.value) == Some(reg.h))
  {
    if Acceptable(reg.h) {
      PutAgreesIff(t.health, t.registry, reg.h.id.value, reg.h);
    }
  }

  lemma {:induction false} PutAgreesIff(a: map<string, Handler>, b: map<string, Handler>, id: string, h: Handler)
    ensures a[id := h] == b[id := h] <==> a - {id} == b - {id}
    ensures a[id := h] == b <==> a - {id} == b - {id} && Lookup(b, id) == Some(h)
  {
    if a - {id} == b - {id} {
      forall k | k != id ensures k in a <==> k in b {
        assert k in a - {id} <==> k in b - {id};
      }
      forall k | k != id && k in a ensures a[k] == b[k] {
        assert (a - {id})[k] == (b - {id})[k];
      }
    }
    if a[id := h] == b[id := h] {
      assert a - {id} == a[id := h] - {id} && b - {id} == b[id := h] - {id};
    }
    if a[id := h] == b {
      assert a - {id} == a[id := h] - {id};
      assert a[id := h][id] == h;
    }
  }

  // A failed registration is not a no-op: a pattern conflict is found after the new handler
  // has taken over its id. A failure changes nothing exactly when the handler was turned down
  // before the first table, or is the one the tables it reached already held.
  lemma {:induction false} FailureChangesNothingIff(m: Matcher, t: Tables, reg: Registration)
    ensures Registered(m, t, reg).1.Ok? <==>
      && reg.h.id.Ok? && reg.h.id.value != "" && reg.h.pattern.Ok? && reg.h.pattern.value != ""
      && reg.registryAccepts && m.insertable(t.router.Keys, reg.h.pattern.value)
    ensures Registered(m, t, reg).1.Ok? ==>
      Registered(m, t, reg).0.router == t.router[reg.h.pattern.value := reg.h.id.value]
    ensures Registered(m, t, reg).1.Err? ==> Registered(m, t, reg).0.router == t.router
    ensures Registered(m, t, reg).1.Err? ==>
      (Registered(m, t, reg).0 == t <==>
        || reg.h.id.Err? || reg.h.id.value == "" || reg.h.pattern.Err? || reg.h.pattern.value == ""
        || (&& Lookup(t.health, reg.h.id.value) == Some(reg.h)
            && (reg.registryAccepts ==> Lookup(t.registry, reg.h.id.value) == Some(reg.h))))
  {
    if Acceptable(reg.h) {
      PutChangesNothingIff(t.health, reg.h.id.value, reg.h);
      PutChangesNothingIff(t.registry, reg.h.id.value, reg.h);
    }
  }

  lemma {:induction false} PutChangesNothingIff(table: map<string, Handler>, id: string, h: Handler)
    ensures table[id := h] == table <==> Lookup(table, id) == Some(h)
  {
    assert table[id := h][id] == h;
    if Lookup(table, id) == Some(h) {
      assert table[id := h].Keys == table.Keys;
    }
  }

  // In particular a duplicate takes over the traffic of the route it failed to register.
  lemma {:induction false} DuplicateTakesOver(m: Matcher, regs: seq<Registration>, h: Handler, path: string)
    requires Sane(m) && Acceptable(h)
    requires Routed(m, After(m, regs), path) == Some(h.id.value)
    requires h.pattern.value in After(m, regs).router
    ensures var (t, r) := Registered(m, After(m, regs), Registration(h, true));
      r == Err(RegistrationFailed(h.pattern.value)) && Dispatched(m, t, path) == Ok(h)
  {}

  lemma {:induction false} RouteIsKept(m: Matcher, t: Tables, reg: Registration, p: string)
    requires Sane(m) && p in t.router
    ensures var t' := Registered(m, t, reg).0; p in t'.router && t'.router[p] == t.router[p]
  {}

  // The reasons of a rejection, first things first.
  lemma {:induction false} RejectedBecause(m: Matcher, t: Tables, reg: Registration)
    ensures var r := Registered(m, t, reg).1;
      && (reg.h.id.Err? ==> r == Err(HandlerRejected(reg.h.id.error)))
      && (reg.h.id == Ok("") ==> r == Err(HandlerRejected("Handler::id() must not be empty")))
      && (reg.h.id.Ok? && reg.h.id.value != "" && reg.h.pattern.Err? ==>
            r == Err(HandlerRejected(reg.h.pattern.error)))
      && (reg.h.id.Ok? && reg.h.id.value != "" && reg.h.pattern == Ok("") ==>
            r == Err(HandlerRejected("Handler::pattern() must not be empty")))
      && (r.Err? && r.error.RegistrationFailed? ==>
            reg.registryAccepts && reg.h.pattern == Ok(r.error.pattern) && !m.insertable(t.router.Keys, r.error.pattern))
  {}

  // Once routed, a pattern keeps its id, whatever is registered later.
  lemma {:induction false} RoutesAreKept(m: Matcher, regs: seq<Registration>, more: seq<Registration>, p: string)
    requires Sane(m) && p in After(m, regs).router
    ensures p in After(m, regs + more).router
    ensures After(m, regs + more).router[p] == After(m, regs).router[p]
  {
    if more == [] {
      assert regs + more == regs;
    } else {
      var n := |more| - 1;
      assert (regs + more)[..|regs + more| - 1] == regs + more[..n];
      RoutesAreKept(m, regs, more[..n], p);
      RouteIsKept(m, After(m, regs + more[..n]), more[n], p);
    }
  }

  // The k-th registration succeeds and routes the pattern to the id.
  predicate Routes(m: Matcher, regs: seq<Registration>, k: nat, p: string, id: string)
    requires k < |regs|
  {
    && Registered(m, After(m, regs[..k]), regs[k]).1.Ok?
    && regs[k].h.pattern.value == p && regs[k].h.id.value == id
  }

  // Only a successful registration routes a pattern, and it routes it to the handler's own id.
  lemma {:induction false} RoutedBySuccess(m: Matcher, regs: seq<Registration>, p: string)
    requires p in After(m, regs).router
    ensures exists k :: 0 <= k < |regs| && Routes(m, regs, k, p, After(m, regs).router[p])
  {
    var n := |regs| - 1;
    assert regs[..n + 1] == regs;
    var prev := After(m, regs[..n]);
    if Registered(m, prev, regs[n]).1.Err? || regs[n].h.pattern.value != p {
      RoutedBySuccess(m, regs[..n], p);
      var k :| 0 <= k < n && Routes(m, regs[..n], k, p, prev.router[p]);
      assert regs[..n][..k] == regs[..k] && regs[..n][k] == regs[k];
      assert Routes(m, regs, k, p, prev.router[p]);
    } else {
      assert Routes(m, regs, n, p, regs[n].h.id.value);
    }
  }

  // The routed patterns are exactly those of the successful registrations.
  lemma {:induction false} RoutedIff(m: Matcher, regs: seq<Registration>, p: string)
    requires Sane(m)
    ensures p in After(m, regs).router <==> exists k, id :: 0 <= k < |regs| && Routes(m, regs, k, p, id)
  {
    if p in After(m, regs).router {
      RoutedBySuccess(m, regs, p);
    }
    if k, id :| 0 <= k < |regs| && Routes(m, regs, k, p, id) {
      var first := regs[..k + 1];
      assert first[..k] == regs[..k];
      FailureChangesNothingIff(m, After(m, regs[..k]), regs[k]);
      assert p in After(m, first).router;
      RoutesAreKept(m, first, regs[k + 1..], p);
      assert first + regs[k + 1..] == regs;
    }
  }

  // From a request's own path to the handler that runs, after any registrations: no match exactly
  // when the path matches none of the routed patterns; else the handler last accepted for the id
  // of the registration that routed the pattern it matches.
  lemma {:induction false} PathRuns(m: Matcher, regs: seq<Registration>, path: string, r: Result<Handler, JobError>)
    requires Sane(m) && Answers(m, After(m, regs), path, r)
    ensures var matched := m.at(After(m, regs).router.Keys, path);
      && (r == Err(NoMatch) <==> matched.None?)
      && (matched.Some? ==> exists k :: 0 <= k < |regs| && RunsFor(m, regs, k, matched.value, r))
  {
    var t := After(m, regs);
    var matched := m.at(t.router.Keys, path);
    if matched.Some? {
      var p := matched.value;
      var id := t.router[p];
      AlwaysComplete(m, regs);
      TablesHoldTheLast(m, regs, id);
      RoutedBySuccess(m, regs, p);
      var k :| 0 <= k < |regs| && Routes(m, regs, k, p, id);
      assert RunsFor(m, regs, k, p, r);
    }
  }

  // The k-th registration routed the pattern, and the last handler accepted under its id runs.
  ghost predicate RunsFor(m: Matcher, regs: seq<Registration>, k: nat, p: string, r: Result<Handler, JobError>) {
    && k < |regs| && regs[k].h.id.Ok? && Routes(m, regs, k, p, regs[k].h.id.value)
    && LastAccepted(regs, regs[k].h.id.value).Some? && r == Ok(LastAccepted(regs, regs[k].h.id.value).value)
  }

  // The last handler accepted under an id, by its place in the run.
  lemma {:induction false} LastAcceptedIs(regs: seq<Registration>, id: string)
    ensures LastAccepted(regs, id).None? <==> forall k :: 0 <= k < |regs| ==> !Accepts(regs[k], id)
    ensures LastAccepted(regs, id).Some? ==>
      exists k :: 0 <= k < |regs| && IsLastAccepted(regs, k, id) && LastAccepted(regs, id).value == regs[k].h
  {
    if regs == [] {
    } else {
      var n := |regs| - 1;
      LastAcceptedIs(regs[..n], id);
      assert forall j :: 0 <= j < n ==> regs[..n][j] == regs[j];
      if Accepts(regs[n], id) {
        assert IsLastAccepted(regs, n, id);
      } else if LastAccepted(regs[..n], id).Some? {
        var k :| 0 <= k < n && IsLastAccepted(regs[..n], k, id) && LastAccepted(regs[..n], id).value == regs[..n][k].h;
        StillLastAccepted(regs, k, id);
      }
    }
  }

  lemma {:induction false} StillLastAccepted(regs: seq<Registration>, k: nat, id: string)
    requires regs != [] && IsLastAccepted(regs[..|regs| - 1], k, id) && !Accepts(regs[|regs| - 1], id)
    ensures IsLastAccepted(regs, k, id)
  {
    var low := regs[..|regs| - 1];
    assert forall j :: 0 <= j < |low| ==> low[j] == regs[j];
  }

  predicate Accepts(reg: Registration, id: string) {
    && reg.h.id == Ok(id) && id != "" && reg.h.pattern.Ok? && reg.h.pattern.value != ""
    && reg.registryAccepts
  }

  predicate IsLastAccepted(regs: seq<Registration>, k: nat, id: string) {
    k < |regs| && Accepts(regs[k], id) && forall j :: k < j < |regs| ==> !Accepts(regs[j], id)
  }
}
