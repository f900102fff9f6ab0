/** The reading of a rule list: every exchange is answered before the next rule is
    looked at, and a rule is shown all responses but those that are late for it. It fixes,
    for each rule, what the rule would do (`Judge`) and what it leaves behind (`Advance`);
    the concurrent walk is measured against it. With nothing late it is the plain reading. */
module SequentialReading {
  import opened Wrappers
  import opened DnsRules

  datatype Reading = Reading(options: Options, anonymous: Option<Launch>, named: map<string, Launch>)

  function NamedSeen(q: Query, i: nat, s: Reading): map<string, Message>
    requires i < |q.rules|
  {
    map t | t in q.rules[i].tags && t !in q.late(i) && t in s.named && Seen(q, s.named[t]).Some? :: Seen(q, s.named[t]).value
  }

  function AnonymousSeen(q: Query, s: Reading): Option<Message> {
    if s.anonymous.Some? then Seen(q, s.anonymous.value) else None
  }

  predicate Matches(q: Query, i: nat, s: Reading)
    requires i < |q.rules|
  {
    q.rules[i].judge(Views(if q.rules[i].anonymous then AnonymousSeen(q, s) else None, NamedSeen(q, i, s)))
  }

  // The exchange whose response a `respond` action of this rule returns.
  function RespondSource(q: Query, i: nat, s: Reading): Option<Launch>
    requires i < |q.rules|
  {
    var tag := q.rules[i].respondTag;
    if tag == "" then s.anonymous
    else if tag in s.named && tag !in q.late(i) then Some(s.named[tag])
    else None
  }

  // What rule i commits to, or None when the reading goes on to rule i + 1.
  function Judge(q: Query, i: nat, s: Reading): Option<Decision>
    requires i < |q.rules|
  {
    var rule := q.rules[i];
    if !Matches(q, i, s) then None
    else
      match rule.action
      case Respond =>
        var source := RespondSource(q, i, s);
        Some(Final(
          if source.None? then RespondWith(None, None)
          else RespondWith(Seen(q, source.value), Some(source.value.transport))))
      case Route(server, _, route) =>
        var resolved := q.ResolveRoute(server, route, s.options);
        if resolved.None? then None else Some(Exchange(Launch(i, resolved.value.0, resolved.value.1)))
      case Reject(RejectDefault) => Some(Final(Reply(Some(q.refused), None, Some(RejectDefault), None)))
      case Reject(RejectDrop) => Some(Final(Reply(None, None, Some(RejectDrop), Some(Dropped))))
      case Predefined(m) => Some(Final(Reply(Some(m), None, None, None)))
      case SetOptions(_) => None
      case Evaluate(_, _, _, _) => None
  }

  // What an uncommitted rule i leaves for the rules after it. A race rule leaves nothing.
  function Advance(q: Query, i: nat, s: Reading): Reading
    requires i < |q.rules|
  {
    var rule := q.rules[i];
    if rule.Races() || !Matches(q, i, s) then s
    else
      match rule.action
      case SetOptions(route) => s.(options := Apply(s.options, route))
      case Evaluate(server, tag, _, route) =>
        if server !in q.servers then
          if tag == "" then s.(anonymous := None) else s
        else
          var launch := Launch(i, q.servers[server], Apply(s.options, route));
          if tag == "" then s.(anonymous := Some(launch)) else s.(named := s.named[tag := launch])
      case _ => s
  }

  function Sequential(q: Query, i: nat, s: Reading): Decision
    requires i <= |q.rules|
    decreases |q.rules| - i
  {
    if i == |q.rules| then Exchange(Launch(i, q.final, s.options))
    else
      var d := Judge(q, i, s);
      if d.Some? then d.value else Sequential(q, i + 1, Advance(q, i, s))
  }

  function Start(q: Query): Reading {
    Reading(q.options, None, map[])
  }

  // The reading just before rule i, provided no rule committed on the way.
  function Path(q: Query, i: nat): Reading
    requires i <= |q.rules|
  {
    if i == 0 then Start(q) else Advance(q, i - 1, Path(q, i - 1))
  }

  predicate Commits(q: Query, i: nat)
    requires i <= |q.rules|
  {
    i == |q.rules| || Judge(q, i, Path(q, i)).Some?
  }

  function DecisionAt(q: Query, i: nat): Decision
    requires i <= |q.rules| && Commits(q, i)
  {
    if i == |q.rules| then Exchange(Launch(i, q.final, Path(q, i).options)) else Judge(q, i, Path(q, i)).value
  }

  predicate Races(q: Query, i: nat) {
    i < |q.rules| && q.rules[i].Races()
  }

  /** Rule i may not take effect while an earlier race rule is undecided: it is
      ordinary and either commits or sends a query that is not speculative. */
  predicate Holds(q: Query, i: nat)
    requires i <= |q.rules|
  {
    !Races(q, i) &&
    (Commits(q, i) ||
     (&& q.rules[i].action.Evaluate?
      && !q.rules[i].action.speculative
      && q.rules[i].action.server in q.servers
      && Matches(q, i, Path(q, i))))
  }

  // Rule i sends a query, in the reading.
  predicate Sends(q: Query, i: nat)
    requires i < |q.rules|
  {
    && !Races(q, i)
    && q.rules[i].action.Evaluate?
    && q.rules[i].action.server in q.servers
    && Matches(q, i, Path(q, i))
  }

  function SentBy(q: Query, i: nat): Launch
    requires i < |q.rules| && Sends(q, i)
  {
    Launch(i, q.servers[q.rules[i].action.server], Apply(Path(q, i).options, q.rules[i].action.route))
  }

  // The exchanges rule i binds.
  function Bound(q: Query, i: nat): set<nat>
    requires i <= |q.rules|
  {
    if i == |q.rules| then {}
    else
      var s := Path(q, i);
      (set t | t in q.rules[i].tags && t in s.named :: s.named[t].site) +
      (if q.rules[i].anonymous && s.anonymous.Some? then {s.anonymous.value.site} else {})
  }

  // Rule i is decided before any rule at or after j commits.
  predicate DecidedBefore(q: Query, i: nat, j: nat)
    requires i < j <= |q.rules|
  {
    !Races(q, i) || exists b :: i < b <= j && Holds(q, b)
  }

  /** The exchanges that must have been answered by the time an earlier race rule is
      looked at for the last time before rule j commits. If answers only come between
      sweeps, these include what rule j itself binds. */
  function MustAnswer(q: Query, steady: bool, j: nat): set<nat>
    requires j <= |q.rules|
  {
    (if steady then Bound(q, j) else {}) + (set i, x | 0 <= i < j && DecidedBefore(q, i, j) && x in Bound(q, i) :: x)
  }

  /** Rule j can end the walk: it commits, and every earlier rule k that would also
      commit is a race rule that can still be undecided then. No rule in between
      waits for k, and k needs an answer that nobody has had to wait for. */
  predicate Winner(q: Query, steady: bool, j: nat)
    requires j <= |q.rules|
  {
    Commits(q, j) &&
    forall k | 0 <= k < j && Commits(q, k) ::
      Races(q, k) && !DecidedBefore(q, k, j) && !(Bound(q, k) <= MustAnswer(q, steady, j))
  }

  /** What configuration checking guarantees about a rule list: a bound tag is only
      ever set by an earlier rule, no two rules set the same tag, and a `respond`
      rule binds exactly what it answers with. */
  predicate WellFormed(rules: seq<Rule>) {
    && (forall i, j | 0 <= i < |rules| && 0 <= j < |rules| && rules[i].action.Evaluate? && rules[i].action.tag in rules[j].tags ::
          i < j)
    && (forall i, j | 0 <= i < j < |rules| && rules[i].action.Evaluate? && rules[j].action.Evaluate? && rules[i].action.tag == rules[j].action.tag ::
          rules[i].action.tag == "")
    && (forall i | 0 <= i < |rules| ::
          "" !in rules[i].tags && (rules[i].respondTag != "" ==> rules[i].tags == [rules[i].respondTag]))
    && (forall i | 0 <= i < |rules| && rules[i].action.Respond? && rules[i].respondTag == "" ::
          rules[i].tags == [])
  }

  // ----- what each rule does, spelled out

  // What comes back of an exchange: an unset strategy is sent as the default one, a set one as it is.
  function Outgoing(q: Query, launch: Launch): Outcome {
    var options := launch.options;
    q.answer(launch.site, launch.transport,
      Options(if options.strategy == 0 then q.defaultStrategy else options.strategy, options.disableCache, options.disableOptimisticCache,
              options.rewriteTTL, options.timeout, options.clientSubnet, options.removeClientSubnet))
  }

  // The reply of an exchange: the message or the error, and the server.
  predicate RepliesFrom(q: Query, launch: Launch, reply: Reply) {
    match Outgoing(q, launch)
    case Got(m) => reply == Reply(Some(m), Some(launch.transport), None, None)
    case Failed(e) => reply == Reply(None, Some(launch.transport), None, Some(e))
  }

  // The reply of a `respond` rule: the message and the server of the exchange it answers with, if that brought one.
  predicate RespondsFrom(q: Query, source: Option<Launch>, reply: Reply) {
    if source.Some? && Outgoing(q, source.value).Got? then
      reply == Reply(Some(Outgoing(q, source.value).message), Some(source.value.transport), None, None)
    else
      reply == Reply(None, None, None, Some(MissingResponse))
  }

  // Rule i, or the default route, decides on d and so on the reply.
  predicate Does(q: Query, i: nat, d: Decision, reply: Reply)
    requires i <= |q.rules|
  {
    var s := Path(q, i);
    if i == |q.rules| then
      d == Exchange(Launch(i, q.final, s.options)) && RepliesFrom(q, Launch(i, q.final, s.options), reply)
    else
      match q.rules[i].action
      case Route(server, _, route) =>
        && server in q.servers
        && d.Exchange?
        && d.launch.site == i
        && d.launch.transport == q.servers[server]
        && Routed(s.options, route, q.servers[server].fakeIP, d.launch.options)
        && RepliesFrom(q, d.launch, reply)
      case Respond =>
        var tag := q.rules[i].respondTag;
        && d == Final(reply)
        && RespondsFrom(q, if tag == "" then s.anonymous else if tag in s.named && tag !in q.late(i) then Some(s.named[tag]) else None, reply)
      case Reject(RejectDefault) => d == Final(reply) && reply == Reply(Some(q.refused), None, Some(RejectDefault), None)
      case Reject(RejectDrop) => d == Final(reply) && reply == Reply(None, None, Some(RejectDrop), Some(Dropped))
      case Predefined(m) => d == Final(reply) && reply == Reply(Some(m), None, None, None)
      case _ => false
  }

  // A rule that matches, and has somewhere to send to if it is to send.
  predicate Acts(q: Query, i: nat)
    requires i < |q.rules|
  {
    Matches(q, i, Path(q, i)) &&
    match q.rules[i].action
    case Route(server, _, _) => server in q.servers && (q.servers[server].fakeIP ==> q.allowFakeIP)
    case SetOptions(_) => false
    case Evaluate(_, _, _, _) => false
    case _ => true
  }

  /** Which rules commit, and what each of them does and replies, by its action. */
  lemma CommittedDoes(q: Query, i: nat)
    requires i <= |q.rules|
    ensures Commits(q, i) <==> i == |q.rules| || Acts(q, i)
    ensures Commits(q, i) ==> Does(q, i, DecisionAt(q, i), Complete(q, DecisionAt(q, i)))
  {
  }

  // What rule i is shown: of the exchanges it reads, the messages of those that brought one and are not late for it.
  predicate Shown(q: Query, i: nat, s: Reading, v: Views)
    requires i < |q.rules|
  {
    && v.anonymous == (if q.rules[i].anonymous && s.anonymous.Some? && Outgoing(q, s.anonymous.value).Got?
                       then Some(Outgoing(q, s.anonymous.value).message) else None)
    && (forall t | t in v.named :: t in q.rules[i].tags && t !in q.late(i) && t in s.named && Outgoing(q, s.named[t]) == Got(v.named[t]))
    && (forall t | t in q.rules[i].tags && t !in q.late(i) && t in s.named && Outgoing(q, s.named[t]).Got? :: t in v.named)
  }

  // The exchange of an evaluating rule.
  predicate Evaluates(q: Query, i: nat, options: Options, launch: Launch)
    requires i < |q.rules| && q.rules[i].action.Evaluate? && q.rules[i].action.server in q.servers
  {
    launch.site == i && launch.transport == q.servers[q.rules[i].action.server] && Routed(options, q.rules[i].action.route, false, launch.options)
  }

  // What rule i, found with s, leaves for the rules after it.
  predicate Leaves(q: Query, i: nat, s: Reading, next: Reading)
    requires i < |q.rules|
  {
    if q.rules[i].Races() || !Matches(q, i, s) then next == s
    else
      match q.rules[i].action
      case SetOptions(route) => Routed(s.options, route, false, next.options) && next.anonymous == s.anonymous && next.named == s.named
      case Evaluate(server, tag, _, _) =>
        && next.options == s.options
        && if tag != "" then
             && next.anonymous == s.anonymous
             && next.named == (if server in q.servers && tag in next.named then s.named[tag := next.named[tag]] else s.named)
             && (server in q.servers ==> tag in next.named && Evaluates(q, i, s.options, next.named[tag]))
           else
             && next.named == s.named
             && (next.anonymous.Some? <==> server in q.servers)
             && (server in q.servers ==> Evaluates(q, i, s.options, next.anonymous.value))
      case _ => next == s
  }

  /** What each rule is judged on. */
  lemma RuleReads(q: Query, i: nat)
    requires i < |q.rules|
    ensures exists v: Views :: Shown(q, i, Path(q, i), v) && (Matches(q, i, Path(q, i)) <==> q.rules[i].judge(v))
  {
    var s := Path(q, i);
    var v := Views(if q.rules[i].anonymous then AnonymousSeen(q, s) else None, NamedSeen(q, i, s));
    assert Shown(q, i, s, v);
  }

  /** What each rule leaves behind, and what it sends if it evaluates. */
  lemma RuleLeaves(q: Query, i: nat)
    requires i < |q.rules|
    ensures Leaves(q, i, Path(q, i), Path(q, i + 1))
    ensures Sends(q, i) ==> Evaluates(q, i, Path(q, i).options, SentBy(q, i))
  {
    var s, next := Path(q, i), Path(q, i + 1);
    if Sends(q, i) {
      var tag := q.rules[i].action.tag;
      assert Evaluates(q, i, s.options, SentBy(q, i));
      assert tag != "" ==> next.named == s.named[tag := SentBy(q, i)];
    }
  }

  // ----- the options of what is sent

  lemma {:induction false} PathHasOneSubnetWish(q: Query, i: nat)
    requires i <= |q.rules| && OneSubnetWish(q.options)
    ensures OneSubnetWish(Path(q, i).options)
  {
    if i > 0 {
      PathHasOneSubnetWish(q, i - 1);
    }
  }

  // No committed exchange asks both to set and to remove the client subnet.
  lemma CommittedHasOneSubnetWish(q: Query, i: nat)
    requires i <= |q.rules| && OneSubnetWish(q.options) && Commits(q, i)
    ensures DecisionAt(q, i).Exchange? ==> OneSubnetWish(DecisionAt(q, i).launch.options)
  {
    PathHasOneSubnetWish(q, i);
  }

  // ----- the plain reading is one of the winners

  // The rule at which the plain reading stops.
  function StopIndex(q: Query, i: nat): (j: nat)
    requires i <= |q.rules|
    ensures i <= j <= |q.rules| && Commits(q, j)
    ensures forall k | i <= k < j :: !Commits(q, k)
    decreases |q.rules| - i
  {
    if Commits(q, i) then i else StopIndex(q, i + 1)
  }

  lemma {:induction false} SequentialStops(q: Query, i: nat)
    requires i <= |q.rules|
    ensures Sequential(q, i, Path(q, i)) == DecisionAt(q, StopIndex(q, i))
    decreases |q.rules| - i
  {
    if !Commits(q, i) {
      SequentialStops(q, i + 1);
    }
  }

  // The plain reading's decision is always possible.
  lemma SequentialIsWinner(q: Query, steady: bool)
    ensures Winner(q, steady, StopIndex(q, 0))
    ensures Sequential(q, 0, Start(q)) == DecisionAt(q, StopIndex(q, 0))
  {
    SequentialStops(q, 0);
  }

  /** The result is the plain reading's whatever the arrival order, as soon as at most
      one race rule commits before the first ordinary rule that does. */
  lemma LoneRaceIsDeterministic(q: Query, steady: bool, ordinary: nat, j: nat)
    requires ordinary <= |q.rules| && Commits(q, ordinary) && !Races(q, ordinary)
    requires forall k | 0 <= k < ordinary && Commits(q, k) :: Races(q, k)
    requires forall k, l | 0 <= k < l < ordinary && Commits(q, k) :: !Commits(q, l)
    requires j <= |q.rules| && Winner(q, steady, j)
    ensures j == StopIndex(q, 0) && DecisionAt(q, j) == Sequential(q, 0, Start(q))
  {
    SequentialStops(q, 0);
    assert Holds(q, ordinary);
  }
}
