/**
 Registration and lookup of webhook routes (channels/server.go). Middleware and HTTP
 serving are not part of this model; the built router is the snapshot of the routes.
 */
module ChannelRoutes {
  import opened Wrappers

  predicate ValidSegment(s: string) {
    s != "" && '/' !in s && '{' !in s && '}' !in s
  }

  function WebhookPath(agent: string, platform: string): string {
    "/agents/" + agent + "/channels/" + platform + "/webhook"
  }

  /** Between prefix and suffix, the path of two plain segments has just the two slashes around "channels". */
  lemma OnlySlashes(agent: string, platform: string, k: nat)
    requires ValidSegment(agent) && ValidSegment(platform)
    requires 8 <= k < |WebhookPath(agent, platform)| - 8 && k != 8 + |agent| && k != 17 + |agent|
    ensures WebhookPath(agent, platform)[k] != '/'
  {
    var path, i := WebhookPath(agent, platform), 8 + |agent|;
    assert path == "/agents/" + (agent + ("/channels/" + (platform + "/webhook")));
    if k < i {
      assert path[k] == agent[k - 8];
    } else if k < i + 10 {
      assert path[k] == "/channels/"[k - i];
    } else {
      assert path[k] == platform[k - i - 10];
    }
  }

  /**
   Whatever strings a job carries, slashes included, they lead to the route of a
   registered pair only if they are that pair.
   */
  lemma PathsUnique(agent: string, platform: string, agent': string, platform': string)
    requires ValidSegment(agent') && ValidSegment(platform')
    ensures WebhookPath(agent, platform) == WebhookPath(agent', platform') <==> agent == agent' && platform == platform'
  {
    var path, path' := WebhookPath(agent, platform), WebhookPath(agent', platform');
    if path == path' {
      var i := 8 + |agent|;
      assert path[i] == '/' && path[i + 9] == '/';
      if |agent| != |agent'| {
        OnlySlashes(agent', platform', if |agent| == |agent'| + 9 then i + 9 else i);
        assert false;
      }
      assert agent == path[8..i] && agent' == path'[8..i];
      assert platform == path[i + 10..|path| - 8] && platform' == path'[i + 10..|path| - 8];
    }
  }

  /** `isNil`: a nil or typed-nil adapter; `acknowledges`: it can only be used with a dispatcher. */
  datatype Adapter = Adapter(isNil: bool, acknowledges: bool, platform: string)

  datatype Binding = Binding(agent: string, platform: string)

  datatype Error = NilAgent | NoAgentID | BadAgentID | NoAdapters | HandlerBuilt
                 | NilAdapter | NeedsDispatch | EmptyPlatform | BadPlatform | AlreadyExposed | DuplicatePlatform

  /** The bindings of one agent to a list of adapters. */
  function Bindings(agent: string, adapters: seq<Adapter>): map<string, Binding> {
    if adapters == [] then map[]
    else
      var last := adapters[|adapters| - 1].platform;
      Bindings(agent, adapters[..|adapters| - 1])[WebhookPath(agent, last) := Binding(agent, last)]
  }

  /** An adapter that may be registered for the agent next to the given routes. */
  predicate Acceptable(agent: string, a: Adapter, canDispatch: bool, routes: map<string, Binding>) {
    && !a.isNil && (a.acknowledges ==> canDispatch) && ValidSegment(a.platform)
    && WebhookPath(agent, a.platform) !in routes
  }

  ghost predicate AllAcceptable(agent: string, adapters: seq<Adapter>, canDispatch: bool, routes: map<string, Binding>) {
    && (forall i :: 0 <= i < |adapters| ==> Acceptable(agent, adapters[i], canDispatch, routes))
    && (forall i, j :: 0 <= i < j < |adapters| ==> adapters[i].platform != adapters[j].platform)
  }

  /** The path of the pair, both plain segments, and without a wildcard. */
  predicate RouteOk(path: string, b: Binding) {
    && ValidSegment(b.agent) && ValidSegment(b.platform) && path == WebhookPath(b.agent, b.platform)
    && '{' !in path && '}' !in path
  }

  /** Every route is under the path of the pair it is bound to. */
  ghost predicate Routed(routes: map<string, Binding>) {
    forall path :: path in routes ==> RouteOk(path, routes[path])
  }

  lemma NoWildcard(agent: string, platform: string)
    requires ValidSegment(agent) && ValidSegment(platform)
    ensures '{' !in WebhookPath(agent, platform) && '}' !in WebhookPath(agent, platform)
  {
  }

  lemma {:induction false} BindingsRouted(agent: string, adapters: seq<Adapter>)
    requires ValidSegment(agent) && forall i :: 0 <= i < |adapters| ==> ValidSegment(adapters[i].platform)
    ensures Routed(Bindings(agent, adapters))
    decreases |adapters|
  {
    if adapters != [] {
      BindingsRouted(agent, adapters[..|adapters| - 1]);
      NoWildcard(agent, adapters[|adapters| - 1].platform);
    }
  }

  lemma {:induction false} NoBindings(agent: string)
    ensures Bindings(agent, []) == map[]
  {
  }

  lemma {:induction false} BindingsStep(agent: string, adapters: seq<Adapter>, i: nat)
    requires i < |adapters|
    ensures var platform := adapters[i].platform;
            Bindings(agent, adapters[..i + 1]) == Bindings(agent, adapters[..i])[WebhookPath(agent, platform) := Binding(agent, platform)]
  {
    assert adapters[..i + 1][..i] == adapters[..i];
  }

  lemma {:induction false} MoreRouted(routes: map<string, Binding>, agent: string, adapters: seq<Adapter>, canDispatch: bool)
    requires Routed(routes) && ValidSegment(agent) && AllAcceptable(agent, adapters, canDispatch, routes)
    ensures Routed(routes + Bindings(agent, adapters))
  {
    hide RouteOk, WebhookPath, Bindings, ValidSegment;
    forall i | 0 <= i < |adapters| ensures ValidSegment(adapters[i].platform) {
      assert Acceptable(agent, adapters[i], canDispatch, routes);
    }
    BindingsRouted(agent, adapters);
  }

  class Server {
    const canDispatch: bool
    var routes: map<string, Binding>
    var building: bool
    var handler: Option<map<string, Binding>>

    /** Once the router is built it serves exactly the registered routes. */
    ghost predicate Valid()
      reads this
    {
      && Routed(routes)
      && (building <==> handler.Some?)
      && (handler.Some? ==> handler.value == routes)
    }

    constructor (canDispatch: bool)
      ensures Valid() && routes == map[] && !building && this.canDispatch == canDispatch
    {
      this.canDispatch := canDispatch;
      routes, building, handler := map[], false, None;
    }

    /** Validates every adapter before any is registered. */
    method Validate(id: string, adapters: seq<Adapter>) returns (err: Option<Error>, paths: seq<string>)
      requires ValidSegment(id)
      ensures err.None? <==> AllAcceptable(id, adapters, canDispatch, routes)
      ensures err.None? ==> |paths| == |adapters|
      ensures err.None? ==> forall j :: 0 <= j < |adapters| ==> paths[j] == WebhookPath(id, adapters[j].platform)
    {
      paths := [];
      for i := 0 to |adapters|
        invariant |paths| == i && forall j :: 0 <= j < i ==> paths[j] == WebhookPath(id, adapters[j].platform)
        invariant AllAcceptable(id, adapters[..i], canDispatch, routes)
      {
        var adapter := adapters[i];
        assert adapters[..i + 1] == adapters[..i] + [adapter];
        if adapter.isNil { return Some(NilAdapter), []; }
        if adapter.acknowledges && !canDispatch { return Some(NeedsDispatch), []; }
        var platform := adapter.platform;
        if platform == "" { return Some(EmptyPlatform), []; }
        if !ValidSegment(platform) { return Some(BadPlatform), []; }
        var path := WebhookPath(id, platform);
        if path in routes { return Some(AlreadyExposed), []; }
        for k := 0 to |paths|
          invariant forall j :: 0 <= j < k ==> adapters[j].platform != platform
        {
          PathsUnique(id, adapters[k].platform, id, platform);
          if paths[k] == path { return Some(DuplicatePlatform), []; }
        }
        paths := paths + [path];
      }
      assert adapters[..|adapters|] == adapters;
      return None, paths;
    }

    /** All adapters of the call are registered, or none of them and nothing changes. */
    method ExposeAgent(agent: Option<string>, adapters: seq<Adapter>) returns (err: Option<Error>)
      requires Valid()
      modifies this
      ensures Valid() && building == old(building) && handler == old(handler)
      ensures err.Some? ==> routes == old(routes)
      ensures err.None? <==>
        && agent.Some? && agent.value != "" && '/' !in agent.value && '{' !in agent.value && '}' !in agent.value
        && adapters != [] && !old(building)
        && AllAcceptable(agent.value, adapters, canDispatch, old(routes))
      ensures err.None? ==> routes == old(routes) + Bindings(agent.value, adapters)
    {
      hide Routed, AllAcceptable, WebhookPath, Bindings;
      if agent.None? { return Some(NilAgent); }
      var id := agent.value;
      if id == "" { return Some(NoAgentID); }
      if !ValidSegment(id) { return Some(BadAgentID); }
      if |adapters| == 0 { return Some(NoAdapters); }
      if handler.Some? || building { return Some(HandlerBuilt); }
      var invalid, paths := Validate(id, adapters);
      if invalid.Some? { return invalid; }
      NoBindings(id);
      assert adapters[..0] == [] && old(routes) + map[] == old(routes);
      for i := 0 to |adapters|
        modifies this`routes
        invariant routes == old(routes) + Bindings(id, adapters[..i])
      {
        BindingsStep(id, adapters, i);
        routes := routes[paths[i] := Binding(id, adapters[i].platform)];
      }
      assert adapters[..|adapters|] == adapters;
      MoreRouted(old(routes), id, adapters, canDispatch);
      return None;
    }

    /** Handler: built once, from the routes at that moment. */
    method Handler() returns (h: map<string, Binding>)
      requires Valid()
      modifies this
      ensures Valid() && routes == old(routes) && building && handler == Some(h) && h == routes
    {
      if handler.None? {
        building := true;
        handler := Some(routes);
      }
      h := handler.value;
    }

    /** The route lookup of RunDispatch: arbitrary job strings find exactly their own registered pair. */
    method Lookup(agent: string, platform: string) returns (b: Option<Binding>)
      requires Valid()
      ensures b.Some? ==> b.value == Binding(agent, platform)
      ensures b.Some? <==> exists path :: path in routes && routes[path] == Binding(agent, platform)
    {
      var path := WebhookPath(agent, platform);
      if path !in routes { return None; }
      b := Some(routes[path]);
      assert RouteOk(path, routes[path]);
      PathsUnique(agent, platform, routes[path].agent, routes[path].platform);
    }
  }
}
