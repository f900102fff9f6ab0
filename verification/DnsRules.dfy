/** DNS rules as the rule walk sees them: what a rule binds, what it does when
    it matches, and how its options change a query. */
module DnsRules {
  import opened Wrappers

  // A DNS message, by identity: the walk hands messages around and never looks inside.
  type Message = nat

  datatype Transport = Transport(tag: string, fakeIP: bool)

  datatype Options = Options(
    strategy: nat, // 0 is "as is"
    disableCache: bool,
    disableOptimisticCache: bool,
    rewriteTTL: Option<nat>,
    timeout: nat,
    clientSubnet: Option<nat>,
    removeClientSubnet: bool)

  datatype RouteOptions = RouteOptions(
    disableCache: bool,
    disableOptimisticCache: bool,
    rewriteTTL: Option<nat>,
    timeout: nat,
    clientSubnet: Option<nat>,
    removeClientSubnet: bool)

  function Apply(options: Options, route: RouteOptions): (r: Options) {
    var merged := options.(
      disableCache := options.disableCache || route.disableCache,
      disableOptimisticCache := options.disableOptimisticCache || route.disableOptimisticCache,
      rewriteTTL := if route.rewriteTTL.Some? then route.rewriteTTL else options.rewriteTTL,
      timeout := if route.timeout > 0 then route.timeout else options.timeout);
    if route.removeClientSubnet then
      merged.(clientSubnet := None, removeClientSubnet := true)
    else if route.clientSubnet.Some? then
      merged.(clientSubnet := route.clientSubnet, removeClientSubnet := false)
    else
      merged
  }

  /** Step by step, as options are changed in place: flags only turn on, values that are
      given replace earlier ones, and setting or removing the subnet undoes the other. */
  method ApplyDNSRouteOptions(options: Options, route: RouteOptions) returns (r: Options)
    ensures r == Apply(options, route)
    ensures r.strategy == options.strategy
    ensures (r.disableCache <==> options.disableCache || route.disableCache)
    ensures (r.disableOptimisticCache <==> options.disableOptimisticCache || route.disableOptimisticCache)
    ensures r.rewriteTTL == if route.rewriteTTL.Some? then route.rewriteTTL else options.rewriteTTL
    ensures r.timeout == if route.timeout > 0 then route.timeout else options.timeout
    ensures route.removeClientSubnet ==> r.clientSubnet.None? && r.removeClientSubnet
    ensures route.clientSubnet.Some? && !route.removeClientSubnet ==> r.clientSubnet == route.clientSubnet && !r.removeClientSubnet
    ensures route.clientSubnet.None? && !route.removeClientSubnet ==>
              r.clientSubnet == options.clientSubnet && r.removeClientSubnet == options.removeClientSubnet
    ensures OneSubnetWish(options) ==> OneSubnetWish(r)
  {
    r := options;
    if route.disableCache {
      r := r.(disableCache := true);
    }
    if route.disableOptimisticCache {
      r := r.(disableOptimisticCache := true);
    }
    if route.rewriteTTL.Some? {
      r := r.(rewriteTTL := route.rewriteTTL);
    }
    if route.timeout > 0 {
      r := r.(timeout := route.timeout);
    }
    if route.clientSubnet.Some? {
      r := r.(clientSubnet := route.clientSubnet, removeClientSubnet := false);
    }
    if route.removeClientSubnet {
      r := r.(clientSubnet := None, removeClientSubnet := true);
    }
  }

  // What the options of a query become on the way to a server, field by field.
  predicate Routed(options: Options, route: RouteOptions, fakeIP: bool, r: Options) {
    && r.strategy == options.strategy
    && (r.disableCache <==> options.disableCache || route.disableCache || fakeIP)
    && (r.disableOptimisticCache <==> options.disableOptimisticCache || route.disableOptimisticCache)
    && r.rewriteTTL == (if route.rewriteTTL.Some? then route.rewriteTTL else options.rewriteTTL)
    && r.timeout == (if route.timeout > 0 then route.timeout else options.timeout)
    && r.clientSubnet == (if route.removeClientSubnet then None else if route.clientSubnet.Some? then route.clientSubnet else options.clientSubnet)
    && (r.removeClientSubnet <==> route.removeClientSubnet || (route.clientSubnet.None? && options.removeClientSubnet))
  }

  // Two rules' options in a row are one rule's.
  function Combined(first: RouteOptions, second: RouteOptions): RouteOptions {
    RouteOptions(
      first.disableCache || second.disableCache,
      first.disableOptimisticCache || second.disableOptimisticCache,
      if second.rewriteTTL.Some? then second.rewriteTTL else first.rewriteTTL,
      if second.timeout > 0 then second.timeout else first.timeout,
      if second.clientSubnet.Some? then second.clientSubnet else first.clientSubnet,
      second.removeClientSubnet || (first.removeClientSubnet && second.clientSubnet.None?))
  }

  lemma ApplyTwice(options: Options, first: RouteOptions, second: RouteOptions)
    ensures Apply(Apply(options, first), second) == Apply(options, Combined(first, second))
  {
  }

  // A subnet to set and the order to remove it are never both in force.
  predicate OneSubnetWish(options: Options) {
    options.clientSubnet.None? || !options.removeClientSubnet
  }

  // The third method, `reply`, is refused when a DNS rule is built.
  datatype RejectMethod = RejectDefault | RejectDrop

  datatype Action =
    | SetOptions(route: RouteOptions)
    | Evaluate(server: string, tag: string, speculative: bool, route: RouteOptions)
    | Respond
    | Route(server: string, speculative: bool, route: RouteOptions)
    | Reject(how: RejectMethod)
    | Predefined(response: Message)

  // The responses a rule may look at while it is being matched.
  datatype Views = Views(anonymous: Option<Message>, named: map<string, Message>)

  /** A compiled rule. `tags` and `anonymous` are what it binds, `respondTag` is the
      one tag a `respond` action answers with, and `judge` is everything else about
      matching: it is only ever applied to the responses the rule binds. */
  datatype Rule = Rule(
    tags: seq<string>,
    anonymous: bool,
    respondTag: string,
    race: bool,
    action: Action,
    judge: Views -> bool)
  {
    predicate HasBindings() {
      |tags| > 0 || anonymous
    }

    // Only a race rule that binds something is armed; any other rule holds its place.
    predicate Races() {
      race && HasBindings()
    }

    // A nil entry and a missing entry read the same.
    function BoundResponses(responses: map<string, Option<Message>>, late: set<string>): map<string, Message> {
      map t | t in tags && t !in late && t in responses && responses[t].Some? :: responses[t].value
    }

    // Match over the walk's own tables, less what is late.
    predicate Match(anonymousView: Option<Message>, responses: map<string, Option<Message>>, late: set<string>) {
      judge(Views(if anonymous then anonymousView else None, BoundResponses(responses, late)))
    }
  }

  datatype Failure = MissingResponse | Dropped | ContextDone | Canceled | ExchangeFailed(code: nat)

  datatype Outcome = Got(message: Message) | Failed(failure: Failure)

  datatype Reply = Reply(
    response: Option<Message>,
    transport: Option<Transport>,
    rejected: Option<RejectMethod>,
    failure: Option<Failure>)

  /** One query: the rule list, the fixed transport table, and an oracle that fixes
      the outcome of the exchange each rule would send. An exchange is identified by
      its site, the index of the rule that sends it (`|rules|` for the default route).
      `late` are the tags a rule is not shown although their exchanges are found to have
      answered, because they did so after responses were last delivered. */
  datatype Query = Query(
    rules: seq<Rule>,
    servers: map<string, Transport>,
    final: Transport,
    allowFakeIP: bool,
    options: Options,
    defaultStrategy: nat,
    refused: Message,
    answer: (nat, Transport, Options) -> Outcome,
    late: nat -> set<string>)
  {
    function Finalize(o: Options): Options {
      if o.strategy == 0 then o.(strategy := defaultStrategy) else o
    }

    // nil when the server is missing, or is a fake-IP server this query may not use.
    function ResolveRoute(server: string, route: RouteOptions, o: Options): Option<(Transport, Options)> {
      if server !in servers || (servers[server].fakeIP && !allowFakeIP) then None
      else
        var applied := Apply(o, route);
        Some((servers[server], if servers[server].fakeIP then applied.(disableCache := true) else applied))
    }
  }

  datatype RouteStatus = Missing | Skipped | Resolved

  method ResolveDNSRoute(q: Query, server: string, route: RouteOptions, options: Options)
    returns (transport: Option<Transport>, status: RouteStatus, r: Options)
    ensures status == Missing <==> server !in q.servers
    ensures status == Skipped <==> server in q.servers && q.servers[server].fakeIP && !q.allowFakeIP
    ensures status == Resolved ==> transport.Some? && q.ResolveRoute(server, route, options) == Some((transport.value, r))
    ensures status != Resolved ==> q.ResolveRoute(server, route, options).None? && r == options
    ensures status == Resolved ==> transport == Some(q.servers[server]) && Routed(options, route, q.servers[server].fakeIP, r)
  {
    r := options;
    if server !in q.servers {
      return None, Missing, r;
    }
    transport := Some(q.servers[server]);
    var isFakeIP := transport.value.fakeIP;
    if isFakeIP && !q.allowFakeIP {
      return transport, Skipped, r;
    }
    r := ApplyDNSRouteOptions(r, route);
    if isFakeIP {
      r := r.(disableCache := true);
    }
    return transport, Resolved, r;
  }

  // An exchange that was sent: where from, to whom, and under which options.
  datatype Launch = Launch(site: nat, transport: Transport, options: Options)

  function Deliver(q: Query, l: Launch): Outcome {
    q.answer(l.site, l.transport, q.Finalize(l.options))
  }

  function Seen(q: Query, l: Launch): Option<Message> {
    match Deliver(q, l)
    case Got(m) => Some(m)
    case Failed(_) => None
  }

  // What the walk commits to: a finished reply, or one more exchange to send.
  datatype Decision = Final(reply: Reply) | Exchange(launch: Launch)

  function ReplyOf(q: Query, l: Launch): Reply {
    match Deliver(q, l)
    case Got(m) => Reply(Some(m), Some(l.transport), None, None)
    case Failed(e) => Reply(None, Some(l.transport), None, Some(e))
  }

  function Complete(q: Query, d: Decision): Reply {
    match d
    case Final(reply) => reply
    case Exchange(l) => ReplyOf(q, l)
  }

  function RespondWith(message: Option<Message>, transport: Option<Transport>): Reply {
    if message.None? then Reply(None, None, None, Some(MissingResponse))
    else Reply(message, transport, None, None)
  }
}
