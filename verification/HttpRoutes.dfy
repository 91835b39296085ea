/**
  HTTPRoutes and Service ports of a server (internal/controller/gateway_routes.go;
  internal/controller/papermcserver_controller.go, buildServicePorts).
 */
module HttpRoutes {
  import opened Wrappers
  import opened Text

  const ROUTE_TYPE := "mc.k8s.lex.la/route-type"
  const MINECRAFT_PORT := 25565
  const MAX_NAME_LENGTH := 253

  datatype Protocol = TCP | UDP | HTTP

  datatype Endpoint = Endpoint(name: string, protocol: Protocol, port: int)

  datatype Plugin = Plugin(name: string, endpoints: seq<Endpoint>)

  datatype HttpRoute = HttpRoute(plugin: string, endpoint: string, hostname: string, pathPrefix: string)

  datatype Rcon = Rcon(enabled: bool, port: int)

  /** The parts of a server that its routes and ports are made from. */
  datatype Server = Server(name: string, uid: string, gatewayEnabled: bool, parentRefs: seq<string>, httpRoutes: seq<HttpRoute>, rcon: Rcon)

  datatype RouteSpec = RouteSpec(parentRefs: seq<string>, hostname: string, backend: string, port: int, pathPrefix: string)

  /** A route object: its labels, spec, owners and the one owner that controls it. */
  datatype Route = Route(labels: map<string, string>, spec: RouteSpec, owners: set<string>, controller: Option<string>)

  // ---------------------------------------------------------------- the desired routes

  /** The last matched plugin of that name. */
  function FindPlugin(plugins: seq<Plugin>, name: string): Option<Plugin> {
    if plugins == [] then None
    else if plugins[|plugins| - 1].name == name then Some(plugins[|plugins| - 1])
    else FindPlugin(plugins[..|plugins| - 1], name)
  }

  function FindHttpEndpoint(endpoints: seq<Endpoint>, name: string): Option<Endpoint> {
    if endpoints == [] then None
    else if endpoints[0].name == name && endpoints[0].protocol == HTTP then Some(endpoints[0])
    else FindHttpEndpoint(endpoints[1..], name)
  }

  /** The port a configured route leads to, if its plugin is matched and has that HTTP endpoint. */
  function TargetPort(plugins: seq<Plugin>, hr: HttpRoute): Option<int> {
    var plugin := FindPlugin(plugins, hr.plugin);
    if plugin.None? then None
    else
      var endpoint := FindHttpEndpoint(plugin.value.endpoints, hr.endpoint);
      if endpoint.None? then None else Some(endpoint.value.port)
  }

  function RouteName(server: Server, hr: HttpRoute, digest: string -> string): string {
    Truncate(server.name + "-http-" + hr.plugin + "-" + hr.endpoint, MAX_NAME_LENGTH, digest)
  }

  function StandardLabels(server: Server): map<string, string> {
    map["app.kubernetes.io/instance" := server.name, "app.kubernetes.io/component" := "networking"]
  }

  function BuildHttpRoute(server: Server, hr: HttpRoute, port: int): Route {
    Route(StandardLabels(server)[ROUTE_TYPE := "http"],
          RouteSpec(server.parentRefs, hr.hostname, server.name, port, hr.pathPrefix), {}, None)
  }

  /** The routes for the first n configured entries; a later entry of the same name replaces an earlier one. */
  function Desired(server: Server, plugins: seq<Plugin>, digest: string -> string, n: nat): map<string, Route>
    requires n <= |server.httpRoutes|
  {
    if n == 0 || !server.gatewayEnabled then map[]
    else
      var hr := server.httpRoutes[n - 1];
      var rest := Desired(server, plugins, digest, n - 1);
      var port := TargetPort(plugins, hr);
      if port.None? then rest else rest[RouteName(server, hr, digest) := BuildHttpRoute(server, hr, port.value)]
  }

  function AllDesired(server: Server, plugins: seq<Plugin>, digest: string -> string): map<string, Route> {
    Desired(server, plugins, digest, |server.httpRoutes|)
  }

  /** Entry i is valid and its route has this name. */
  predicate Names(server: Server, plugins: seq<Plugin>, digest: string -> string, i: nat, name: string)
    requires i < |server.httpRoutes|
  {
    TargetPort(plugins, server.httpRoutes[i]).Some? && RouteName(server, server.httpRoutes[i], digest) == name
  }

  /** The last valid entry among the first n whose route has this name. */
  ghost predicate LastNamed(server: Server, plugins: seq<Plugin>, digest: string -> string, n: nat, i: nat, name: string)
    requires n <= |server.httpRoutes|
  {
    i < n && Names(server, plugins, digest, i, name) && forall j | i < j < n :: !Names(server, plugins, digest, j, name)
  }

  /** Under each name of a valid entry there is the route of the last such entry, and under other names nothing. */
  lemma {:induction false} DesiredMeaning(server: Server, plugins: seq<Plugin>, digest: string -> string, n: nat, name: string)
    requires n <= |server.httpRoutes|
    ensures name in Desired(server, plugins, digest, n) <==>
              (server.gatewayEnabled && exists i: nat :: LastNamed(server, plugins, digest, n, i, name))
    ensures name in Desired(server, plugins, digest, n) ==>
              exists i: nat :: LastNamed(server, plugins, digest, n, i, name) &&
                               Desired(server, plugins, digest, n)[name] ==
                                 BuildHttpRoute(server, server.httpRoutes[i], TargetPort(plugins, server.httpRoutes[i]).value)
  {
    LastNamedIs(server, plugins, digest, n, name);
    if server.gatewayEnabled {
      DesiredIsLast(server, plugins, digest, n, name);
    }
    var last := LastIndex(server, plugins, digest, n, name);
    if last.Some? {
      assert LastNamed(server, plugins, digest, n, last.value, name);
    }
  }

  function LastIndex(server: Server, plugins: seq<Plugin>, digest: string -> string, n: nat, name: string): Option<nat>
    requires n <= |server.httpRoutes|
  {
    if n == 0 then None
    else if Names(server, plugins, digest, n - 1, name) then Some(n - 1)
    else LastIndex(server, plugins, digest, n - 1, name)
  }

  lemma {:induction false} LastNamedIs(server: Server, plugins: seq<Plugin>, digest: string -> string, n: nat, name: string)
    requires n <= |server.httpRoutes|
    ensures match LastIndex(server, plugins, digest, n, name)
            case Some(i) => LastNamed(server, plugins, digest, n, i, name)
            case None => forall i: nat | i < n :: !Names(server, plugins, digest, i, name)
  {
    if n > 0 {
      LastNamedIs(server, plugins, digest, n - 1, name);
    }
  }

  lemma {:induction false} DesiredIsLast(server: Server, plugins: seq<Plugin>, digest: string -> string, n: nat, name: string)
    requires n <= |server.httpRoutes| && server.gatewayEnabled
    ensures match LastIndex(server, plugins, digest, n, name)
            case None => name !in Desired(server, plugins, digest, n)
            case Some(i) =>
              && i < n && Names(server, plugins, digest, i, name) && name in Desired(server, plugins, digest, n)
              && Desired(server, plugins, digest, n)[name] ==
                   BuildHttpRoute(server, server.httpRoutes[i], TargetPort(plugins, server.httpRoutes[i]).value)
  {
    if n > 0 {
      DesiredIsLast(server, plugins, digest, n - 1, name);
    }
  }

  method BuildDesiredHttpRoutes(server: Server, plugins: seq<Plugin>, digest: string -> string)
    returns (desired: map<string, Route>, issues: nat)
    ensures desired == AllDesired(server, plugins, digest)
    ensures issues == 0 <==> !server.gatewayEnabled || forall hr | hr in server.httpRoutes :: TargetPort(plugins, hr).Some?
  {
    desired, issues := map[], 0;
    if !server.gatewayEnabled {
      return;
    }
    for i := 0 to |server.httpRoutes|
      invariant desired == Desired(server, plugins, digest, i)
      invariant issues == 0 <==> forall j | 0 <= j < i :: TargetPort(plugins, server.httpRoutes[j]).Some?
    {
      var hr := server.httpRoutes[i];
      var port := TargetPort(plugins, hr);
      if port.None? {
        issues := issues + 1;
        continue;
      }
      desired := desired[RouteName(server, hr, digest) := BuildHttpRoute(server, hr, port.value)];
    }
  }

  // ---------------------------------------------------------------- convergence

  /** An HTTP route object of this server. */
  predicate Ours(routes: map<string, Route>, uid: string, n: string) {
    n in routes && ROUTE_TYPE in routes[n].labels && routes[n].labels[ROUTE_TYPE] == "http" && uid in routes[n].owners
  }

  predicate SameRoute(r: Route, d: Route) {
    r.spec == d.spec && r.labels == d.labels
  }

  /** The server's HTTP routes are exactly the desired ones. */
  ghost predicate Converged(routes: map<string, Route>, uid: string, desired: map<string, Route>) {
    && (forall n :: Ours(routes, uid, n) <==> n in desired)
    && (forall n | n in desired :: n in routes && SameRoute(routes[n], desired[n]))
  }

  /** The route exists as an HTTP route of ours and matches what is desired. */
  predicate Applied(routes: map<string, Route>, uid: string, n: string, d: Route) {
    Ours(routes, uid, n) && SameRoute(routes[n], d)
  }

  lemma AppliedAt(before: map<string, Route>, after: map<string, Route>, uid: string, n: string, d: Route)
    requires (n in before <==> n in after) && (n in before ==> before[n] == after[n])
    ensures Applied(before, uid, n, d) <==> Applied(after, uid, n, d)
  {
  }

  /** One more route is dealt with: it may change only if it is in the larger set. */
  lemma SparedNext(start: map<string, Route>, before: map<string, Route>, after: map<string, Route>,
                   names: set<string>, more: set<string>, n: string)
    requires Spared(start, before, names) && names <= more
    requires forall m | m != n :: (m in after <==> m in before) && (m in after ==> after[m] == before[m])
    requires n in before ==> n in after && (n !in more ==> after == before)
    ensures Spared(start, after, more)
  {
  }

  lemma SparedWider(start: map<string, Route>, after: map<string, Route>, names: set<string>, more: set<string>)
    requires Spared(start, after, names) && names <= more
    ensures Spared(start, after, more)
  {
  }

  lemma OursAreOwned(routes: map<string, Route>, uid: string)
    ensures forall n | Ours(routes, uid, n) :: uid in routes[n].owners
  {
  }

  /** Every route that was there is still there, and those outside `names` are as they were. */
  ghost predicate Spared(before: map<string, Route>, after: map<string, Route>, names: set<string>) {
    forall n | n in before :: n in after && (n !in names ==> after[n] == before[n])
  }

  ghost predicate Labelled(desired: map<string, Route>) {
    forall n | n in desired :: ROUTE_TYPE in desired[n].labels && desired[n].labels[ROUTE_TYPE] == "http"
  }

  /** The route objects of a namespace in the API server; the n-th call fails when `faults(n)`. */
  class Namespace {
    const crdInstalled: bool
    const faults: nat -> bool
    var calls: nat
    var writes: nat
    var routes: map<string, Route>

    constructor (crdInstalled: bool, faults: nat -> bool, routes: map<string, Route>)
      ensures this.crdInstalled == crdInstalled && this.routes == routes
    {
      this.crdInstalled, this.faults, this.routes, calls, writes := crdInstalled, faults, routes, 0, 0;
    }

    method Call() returns (ok: bool)
      modifies this`calls
    {
      ok := !faults(calls);
      calls := calls + 1;
    }

    method ListOwnedHttpRoutes(uid: string) returns (owned: map<string, Route>, ok: bool)
      modifies this`calls
      ensures ok ==> owned == map n | n in routes && Ours(routes, uid, n) :: routes[n]
    {
      owned := map[];
      ok := Call();
      if !ok {
        return;
      }
      var todo := routes.Keys;
      while todo != {}
        invariant todo <= routes.Keys
        invariant owned == map n | n in routes && n !in todo && Ours(routes, uid, n) :: routes[n]
        decreases todo
      {
        var n :| n in todo;
        todo := todo - {n};
        if Ours(routes, uid, n) {
          owned := owned[n := routes[n]];
        }
      }
    }

    /** Fails when the name is taken. */
    method Create(n: string, r: Route) returns (ok: bool)
      modifies this
      ensures ok ==> n !in old(routes) && routes == old(routes)[n := r]
      ensures !ok ==> routes == old(routes) && writes == old(writes)
    {
      ok := Call();
      ok := ok && n !in routes;
      if ok {
        routes, writes := routes[n := r], writes + 1;
      }
    }

    /** Writes only when spec or labels differ; fails when another object controls the route. */
    method UpdateHttpRouteIfChanged(uid: string, n: string, existing: Route, desired: Route) returns (ok: bool)
      requires n in routes && routes[n] == existing && uid in existing.owners
      modifies this
      ensures routes.Keys == old(routes).Keys
      ensures forall m | m in routes && m != n :: routes[m] == old(routes)[m]
      ensures ok ==> SameRoute(routes[n], desired) && uid in routes[n].owners
      ensures !ok || SameRoute(existing, desired) ==> routes == old(routes) && writes == old(writes)
    {
      if existing.controller.Some? && existing.controller.value != uid {
        return false;
      }
      if SameRoute(existing, desired) {
        return true;
      }
      ok := Call();
      if ok {
        routes := routes[n := existing.(spec := desired.spec, labels := desired.labels, controller := Some(uid))];
        writes := writes + 1;
      }
    }

    method Delete(n: string) returns (ok: bool)
      modifies this
      ensures routes == if ok then old(routes) - {n} else old(routes)
      ensures !ok ==> writes == old(writes)
    {
      ok := Call();
      if ok {
        routes, writes := routes - {n}, writes + 1;
      }
    }

    /** Creates or updates one route; a name taken by a route that is not ours is an error. */
    method ApplyHttpRoute(uid: string, n: string, desired: Route, existing: map<string, Route>) returns (ok: bool)
      requires ROUTE_TYPE in desired.labels && desired.labels[ROUTE_TYPE] == "http"
      requires n in existing ==> n in routes && routes[n] == existing[n] && uid in existing[n].owners
      modifies this
      ensures forall m | m != n :: (m in routes <==> m in old(routes)) && (m in routes ==> routes[m] == old(routes)[m])
      ensures n in old(routes) && n !in existing ==> routes == old(routes)
      ensures n in old(routes) ==> n in routes
      ensures ok ==> Applied(routes, uid, n, desired)
      ensures n in existing && SameRoute(existing[n], desired) ==> routes == old(routes) && writes == old(writes)
    {
      if n !in existing {
        ok := Create(n, desired.(owners := {uid}, controller := Some(uid)));
      } else {
        ok := UpdateHttpRouteIfChanged(uid, n, existing[n], desired);
      }
    }

    method ApplyHttpRouteChanges(uid: string, desired: map<string, Route>, existing: map<string, Route>) returns (ok: bool)
      requires Labelled(desired)
      requires existing == map n | n in routes && Ours(routes, uid, n) :: routes[n]
      modifies this
      ensures Spared(old(routes), routes, existing.Keys * desired.Keys)
      ensures routes.Keys <= old(routes).Keys + desired.Keys
      ensures ok ==> forall n | n in desired :: Applied(routes, uid, n, desired[n])
      ensures (forall n | n in desired :: n in existing && SameRoute(existing[n], desired[n])) ==>
                routes == old(routes) && writes == old(writes)
    {
      assert Spared(routes, routes, {});
      hide Ours, SameRoute, Applied, Spared;
      OursAreOwned(routes, uid);
      ghost var idle := forall n | n in desired :: n in existing && SameRoute(existing[n], desired[n]);
      var todo := desired.Keys;
      assert existing.Keys * (desired.Keys - todo) == {};
      while todo != {}
        invariant todo <= desired.Keys
        invariant Spared(old(routes), routes, existing.Keys * (desired.Keys - todo))
        invariant routes.Keys <= old(routes).Keys + desired.Keys
        invariant forall n | n in desired && n !in todo :: Applied(routes, uid, n, desired[n])
        invariant idle ==> routes == old(routes) && writes == old(writes)
        decreases todo
      {
        var n :| n in todo;
        ghost var before := routes;
        ok := ApplyHttpRoute(uid, n, desired[n], existing);
        forall m | m in desired && m != n && m !in todo ensures Applied(routes, uid, m, desired[m]) {
          AppliedAt(before, routes, uid, m, desired[m]);
        }
        SparedNext(old(routes), before, routes, existing.Keys * (desired.Keys - todo), existing.Keys * (desired.Keys - (todo - {n})), n);
        todo := todo - {n};
        if !ok {
          SparedWider(old(routes), routes, existing.Keys * (desired.Keys - todo), existing.Keys * desired.Keys);
          return;
        }
      }
      assert existing.Keys * (desired.Keys - todo) == existing.Keys * desired.Keys;
      ok := true;
    }

    method DeleteOrphanedHttpRoutes(desired: map<string, Route>, existing: map<string, Route>) returns (ok: bool)
      modifies this
      ensures forall n | n in routes :: n in old(routes) && routes[n] == old(routes)[n]
      ensures forall n | n in old(routes) && n !in routes :: n in existing && n !in desired
      ensures ok ==> forall n | n in existing && n !in desired :: n !in routes
      ensures existing.Keys <= desired.Keys ==> writes == old(writes)
    {
      var todo := existing.Keys;
      while todo != {}
        invariant todo <= existing.Keys
        invariant forall n | n in routes :: n in old(routes) && routes[n] == old(routes)[n]
        invariant forall n | n in old(routes) && n !in routes :: n in existing && n !in desired
        invariant forall n | n in existing && n !in desired && n !in todo :: n !in routes
        invariant existing.Keys <= desired.Keys ==> writes == old(writes)
        decreases todo
      {
        var n :| n in todo;
        todo := todo - {n};
        if n !in desired {
          ok := Delete(n);
          if !ok {
            return;
          }
        }
      }
      ok := true;
    }

    /**
      One pass, in any order of the route maps.  Routes that are not ours are never touched; a pass
      without an error converges; a pass over converged routes writes nothing.
     */
    method ReconcileHttpRoutes(server: Server, plugins: seq<Plugin>, digest: string -> string) returns (ok: bool)
      modifies this
      ensures forall n | n in old(routes) && !Ours(old(routes), server.uid, n) :: n in routes && routes[n] == old(routes)[n]
      ensures ok && crdInstalled ==> Converged(routes, server.uid, AllDesired(server, plugins, digest))
      ensures !crdInstalled ==> routes == old(routes)
      ensures Converged(old(routes), server.uid, AllDesired(server, plugins, digest)) ==>
                routes == old(routes) && writes == old(writes)
    {
      var desired, issues := BuildDesiredHttpRoutes(server, plugins, digest);
      forall n | n in desired ensures ROUTE_TYPE in desired[n].labels && desired[n].labels[ROUTE_TYPE] == "http" {
        DesiredMeaning(server, plugins, digest, |server.httpRoutes|, n);
      }
      var existing, listed := ListOwnedHttpRoutes(server.uid);
      if !listed {
        return false;
      }
      if !crdInstalled {
        return true;
      }
      ok := ApplyHttpRouteChanges(server.uid, desired, existing);
      if !ok {
        return;
      }
      ok := DeleteOrphanedHttpRoutes(desired, existing);
    }
  }

  // ---------------------------------------------------------------- Service ports

  datatype ServicePort = ServicePort(port: int, protocol: Protocol)

  function Transport(p: Protocol): Protocol {
    if p == UDP then UDP else TCP
  }

  function PortOf(e: Endpoint): ServicePort {
    ServicePort(e.port, Transport(e.protocol))
  }

  predicate Offers(plugins: seq<Plugin>, p: ServicePort) {
    exists plugin | plugin in plugins :: exists e | e in plugin.endpoints :: PortOf(e) == p
  }

  /** The ports the server itself opens. */
  function OwnPorts(rcon: Rcon): seq<ServicePort> {
    [ServicePort(MINECRAFT_PORT, TCP)] + (if rcon.enabled then [ServicePort(rcon.port, TCP)] else [])
  }

  ghost predicate NoRepeats(ports: seq<ServicePort>) {
    forall i, j | 0 <= i < j < |ports| :: ports[i] != ports[j]
  }

  /**
    The Service offers the server's own ports and every endpoint of every matched plugin, and
    nothing else.  No port is listed twice, exactly unless RCON is put on the game port.
   */
  method BuildServicePorts(rcon: Rcon, plugins: seq<Plugin>) returns (ports: seq<ServicePort>)
    ensures OwnPorts(rcon) <= ports
    ensures forall p :: p in ports <==> p in OwnPorts(rcon) || Offers(plugins, p)
    ensures NoRepeats(ports) <==> !(rcon.enabled && rcon.port == MINECRAFT_PORT)
  {
    ports := OwnPorts(rcon);
    var seen := set p | p in ports;
    for i := 0 to |plugins|
      invariant OwnPorts(rcon) <= ports && forall p :: p in seen <==> p in ports
      invariant forall p :: p in ports <==> p in OwnPorts(rcon) || Offers(plugins[..i], p)
      invariant NoRepeats(ports) <==> NoRepeats(OwnPorts(rcon))
    {
      var endpoints := plugins[i].endpoints;
      for j := 0 to |endpoints|
        invariant OwnPorts(rcon) <= ports && forall p :: p in seen <==> p in ports
        invariant forall p :: p in ports <==> p in OwnPorts(rcon) || Offers(plugins[..i], p) || exists l :: 0 <= l < j && PortOf(endpoints[l]) == p
        invariant NoRepeats(ports) <==> NoRepeats(OwnPorts(rcon))
      {
        var p := PortOf(endpoints[j]);
        if p in seen {
          continue;
        }
        seen := seen + {p};
        ports := ports + [p];
      }
      OffersOneMore(plugins, i);
    }
    assert plugins[..|plugins|] == plugins;
    OwnPortsRepeat(rcon);
  }

  lemma OwnPortsRepeat(rcon: Rcon)
    ensures NoRepeats(OwnPorts(rcon)) <==> !(rcon.enabled && rcon.port == MINECRAFT_PORT)
  {
    var own := OwnPorts(rcon);
    if rcon.enabled && rcon.port == MINECRAFT_PORT {
      assert own[0] == own[1];
    }
  }

  lemma OffersOneMore(plugins: seq<Plugin>, i: nat)
    requires i < |plugins|
    ensures forall p :: Offers(plugins[..i + 1], p) <==>
              Offers(plugins[..i], p) || exists l :: 0 <= l < |plugins[i].endpoints| && PortOf(plugins[i].endpoints[l]) == p
  {
    assert plugins[..i + 1] == plugins[..i] + [plugins[i]];
    assert plugins[i] in plugins[..i + 1];
  }

  lemma {:induction false} FoundPluginOffers(plugins: seq<Plugin>, name: string)
    ensures FindPlugin(plugins, name).Some? ==> FindPlugin(plugins, name).value in plugins
  {
    if plugins != [] {
      FoundPluginOffers(plugins[..|plugins| - 1], name);
    }
  }

  lemma {:induction false} FoundEndpoint(endpoints: seq<Endpoint>, name: string)
    ensures var e := FindHttpEndpoint(endpoints, name); e.Some? ==> e.value in endpoints && e.value.protocol == HTTP
  {
    if endpoints != [] {
      FoundEndpoint(endpoints[1..], name);
    }
  }

  /** Every desired route leads to a TCP port that the Service built from the same plugins offers. */
  lemma RoutesLeadToServicePorts(server: Server, plugins: seq<Plugin>, digest: string -> string, name: string)
    requires name in AllDesired(server, plugins, digest)
    ensures Offers(plugins, ServicePort(AllDesired(server, plugins, digest)[name].spec.port, TCP))
    ensures AllDesired(server, plugins, digest)[name].spec.backend == server.name
  {
    DesiredMeaning(server, plugins, digest, |server.httpRoutes|, name);
    var i: nat :| LastNamed(server, plugins, digest, |server.httpRoutes|, i, name) &&
      AllDesired(server, plugins, digest)[name] == BuildHttpRoute(server, server.httpRoutes[i], TargetPort(plugins, server.httpRoutes[i]).value);
    var hr := server.httpRoutes[i];
    FoundPluginOffers(plugins, hr.plugin);
    FoundEndpoint(FindPlugin(plugins, hr.plugin).value.endpoints, hr.endpoint);
  }
}
