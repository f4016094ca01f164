/** `DefaultGrpcJob`: the registered id is the route; duplicates are turned away first. */
module GrpcJobs {
  import opened Wrappers
  import opened HttpJobs

  // The two tables of the job; there is no path router.
  datatype GrpcTables = GrpcTables(registry: map<string, Handler>, health: map<string, Handler>)

  const NO_ROUTES := GrpcTables(map[], map[])

  function GrpcRegistered(t: GrpcTables, reg: Registration): (GrpcTables, Result<(), RegistrationError>) {
    var h := reg.h;
    if !Acceptable(h) then (t, Err(Rejection(h)))
    else if h.id.value in t.registry then (t, Err(RegistrationFailed(h.id.value)))
    else
      var checked := t.(health := t.health[h.id.value := h]);
      if !reg.registryAccepts then (checked, Err(HandlerRejected("registry")))
      else (checked.(registry := t.registry[h.id.value := h]), Ok(()))
  }

  function GrpcDispatched(t: GrpcTables, rpc: string): Result<Handler, JobError> {
    if rpc in t.registry then Ok(t.registry[rpc]) else Err(NoMatch)
  }

  function Listed(t: GrpcTables): set<string> {
    t.registry.Keys
  }

  class DefaultGrpcJob {
    var registry: map<string, Handler>
    var healthHandlers: map<string, Handler>

    ghost function Model(): GrpcTables
      reads this
    {
      GrpcTables(registry, healthHandlers)
    }

    constructor ()
      ensures Model() == NO_ROUTES
    {
      registry, healthHandlers := map[], map[];
    }

    method RegisterRoute(h: Handler, registryAccepts: bool) returns (r: Result<(), RegistrationError>)
      modifies this
      ensures (Model(), r) == GrpcRegistered(old(Model()), Registration(h, registryAccepts))
    {
      if h.id.Err? {
        return Err(HandlerRejected(h.id.error));
      }
      var id := h.id.value;
      if id == "" {
        return Err(HandlerRejected("Handler::id() must not be empty"));
      }
      if h.pattern.Err? {
        return Err(HandlerRejected(h.pattern.error));
      }
      if h.pattern.value == "" {
        return Err(HandlerRejected("Handler::pattern() must not be empty"));
      }
      if id in registry {
        return Err(RegistrationFailed(id));
      }
      healthHandlers := healthHandlers[id := h];
      if !registryAccepts {
        return Err(HandlerRejected("registry"));
      }
      registry := registry[id := h];
      r := Ok(());
    }

    // `route` answers with its own input, so the second lookup of `run` repeats the first.
    method Run(rpc: string) returns (r: Result<Handler, JobError>)
      ensures r == GrpcDispatched(Model(), rpc)
    {
      if rpc !in registry {
        return Err(NoMatch);
      }
      r := Ok(registry[rpc]);
    }

    method HealthCheck(healthy: Handler -> bool) returns (ok: bool)
      ensures ok <==> forall id :: id in healthHandlers ==> healthy(healthHandlers[id])
    {
      ok := AllHealthy(healthHandlers, healthy);
    }

    // Exactly the ids that `Run` finds a handler for.
    function ListRouteIds(): (ids: set<string>)
      reads this
      ensures ids == Listed(Model())
      ensures forall rpc :: rpc in ids <==> GrpcDispatched(Model(), rpc).Ok?
    {
      registry.Keys
    }
  }

  // ---- Any sequence of registrations ----

  function GrpcAfter(regs: seq<Registration>): GrpcTables {
    if regs == [] then NO_ROUTES else GrpcRegistered(GrpcAfter(regs[..|regs| - 1]), regs[|regs| - 1]).0
  }

  // The registration would route the id, were it free.
  predicate Claims(reg: Registration, id: string) {
    Accepts(reg, id)
  }

  // The handler of the earliest registration that claims an id.
  function FirstClaim(regs: seq<Registration>, id: string): Option<Handler> {
    if regs == [] then None
    else if Claims(regs[0], id) then Some(regs[0].h)
    else FirstClaim(regs[1..], id)
  }

  lemma {:induction false} LaterClaimsLose(regs: seq<Registration>, reg: Registration, id: string)
    ensures FirstClaim(regs + [reg], id) ==
      if FirstClaim(regs, id).Some? then FirstClaim(regs, id)
      else if Claims(reg, id) then Some(reg.h) else None
  {
    if regs == [] {
    } else {
      assert (regs + [reg])[1..] == regs[1..] + [reg];
      LaterClaimsLose(regs[1..], reg, id);
    }
  }

  // Whatever else is registered, or fails to be, an id runs the handler that first claimed it,
  // and is not routable while none has.
  lemma {:induction false} FirstClaimRuns(regs: seq<Registration>, id: string)
    ensures GrpcDispatched(GrpcAfter(regs), id) ==
      var first := FirstClaim(regs, id); if first.Some? then Ok(first.value) else Err(NoMatch)
  {
    if regs == [] {
    } else {
      var n := |regs| - 1;
      FirstClaimRuns(regs[..n], id);
      LaterClaimsLose(regs[..n], regs[n], id);
      assert regs == regs[..n] + [regs[n]];
    }
  }

  // A duplicate, an empty id or pattern, or a handler without one changes nothing at all, whatever
  // the registry would have said. Any other failure leaves the routes alone, and everything only
  // if the health table held the refused handler already.
  lemma {:induction false} TurnedAwayChangesNothing(t: GrpcTables, reg: Registration)
    ensures var (t', r) := GrpcRegistered(t, reg);
      && (r.Ok? <==>
            && reg.h.id.Ok? && reg.h.id.value != "" && reg.h.pattern.Ok? && reg.h.pattern.value != ""
            && reg.h.id.value !in t.registry && reg.registryAccepts)
      && (r.Ok? ==> Listed(t') == Listed(t) + {reg.h.id.value})
      && (r.Err? ==> t'.registry == t.registry)
    ensures GrpcRegistered(t, reg).0 == t <==>
      || reg.h.id.Err? || reg.h.id.value == "" || reg.h.pattern.Err? || reg.h.pattern.value == ""
      || reg.h.id.value in t.registry
      || (!reg.registryAccepts && Lookup(t.health, reg.h.id.value) == Some(reg.h))
  {
    if Acceptable(reg.h) {
      PutChangesNothingIff(t.health, reg.h.id.value, reg.h);
    }
  }

  // After any registrations, the ids listed are the ones some registration claimed, and the ones
  // that can be called.
  lemma {:induction false} ListedAreClaimed(regs: seq<Registration>, id: string)
    ensures id in Listed(GrpcAfter(regs)) <==> exists k :: 0 <= k < |regs| && Claims(regs[k], id)
    ensures id in Listed(GrpcAfter(regs)) <==> GrpcDispatched(GrpcAfter(regs), id).Ok?
  {
    FirstClaimRuns(regs, id);
    ClaimedIff(regs, id);
  }

  lemma {:induction false} ClaimedIff(regs: seq<Registration>, id: string)
    ensures FirstClaim(regs, id).Some? <==> exists k :: 0 <= k < |regs| && Claims(regs[k], id)
  {
    if regs == [] {
    } else {
      var rest := regs[1..];
      ClaimedIff(rest, id);
      assert forall k :: 1 <= k < |regs| ==> regs[k] == rest[k - 1];
      assert forall k :: 0 <= k < |rest| ==> rest[k] == regs[k + 1];
    }
  }

  // With a registry that refuses nothing, the ids listed are the ones health-checked, handler
  // for handler.
  lemma {:induction false} GrpcTablesAgree(regs: seq<Registration>)
    requires NeverRefused(regs)
    ensures GrpcAfter(regs).health == GrpcAfter(regs).registry
    ensures Listed(GrpcAfter(regs)) == GrpcAfter(regs).health.Keys
  {
    if regs == [] {
    } else {
      GrpcTablesAgree(regs[..|regs| - 1]);
    }
  }

  // The health table holds the first claim of an id, and before any claim the last handler that
  // was offered and refused.
  lemma {:induction false} HealthHolds(regs: seq<Registration>, id: string)
    ensures Lookup(GrpcAfter(regs).health, id) ==
      if FirstClaim(regs, id).Some? then FirstClaim(regs, id) else LastOffered(regs, id)
  {
    if regs == [] {
    } else {
      var n := |regs| - 1;
      HealthHolds(regs[..n], id);
      FirstClaimRuns(regs[..n], id);
      LaterClaimsLose(regs[..n], regs[n], id);
      assert regs == regs[..n] + [regs[n]];
    }
  }

  // An id that some registration offered a handler for, some registration claimed.
  predicate OfferedIsClaimed(regs: seq<Registration>, id: string) {
    LastOffered(regs, id).Some? ==> FirstClaim(regs, id).Some?
  }

  // After any registrations the handlers health-checked are the ones dispatched exactly when
  // every id offered is claimed: a refusal that is never made up for leaves a handler that is
  // health-checked but cannot be reached.
  lemma {:induction false} GrpcTablesAgreeIff(regs: seq<Registration>)
    ensures GrpcAfter(regs).health == GrpcAfter(regs).registry <==> forall id :: OfferedIsClaimed(regs, id)
  {
    var t := GrpcAfter(regs);
    if t.health == t.registry {
      forall id ensures OfferedIsClaimed(regs, id) {
        HealthHolds(regs, id);
        FirstClaimRuns(regs, id);
      }
    }
    if forall id :: OfferedIsClaimed(regs, id) {
      forall id: string ensures Lookup(t.health, id) == Lookup(t.registry, id) {
        assert OfferedIsClaimed(regs, id);
        HealthHolds(regs, id);
        FirstClaimRuns(regs, id);
      }
      SameTableIff(t.health, t.registry);
    }
  }

  // One registration, from any tables.
  lemma {:induction false} GrpcTablesPartIff(t: GrpcTables, reg: Registration)
    ensures var t' := GrpcRegistered(t, reg).0;
      t'.health == t'.registry <==>
        if !Acceptable(reg.h) || reg.h.id.value in t.registry then t.health == t.registry
        else reg.registryAccepts && t.health - {reg.h.id.value} == t.registry - {reg.h.id.value}
  {
    if Acceptable(reg.h) {
      PutAgreesIff(t.health, t.registry, reg.h.id.value, reg.h);
    }
  }
}
