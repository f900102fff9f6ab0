/** The state of a concurrent rule walk and what every reachable state satisfies.
    Exchanges answer at times fixed by a schedule; each step of the walk keeps the
    state in agreement with the plain reading of the rules passed so far. */
module WalkState {
  import opened Wrappers
  import opened DnsRules
  import opened SequentialReading

  /** The walk moves in steps: it looks at a rule, or comes round its loop. In the course
      of a step it reads several times which exchanges have answered. */
  datatype Moment = Moment(step: nat, sub: nat)

  predicate By(m: Moment, now: Moment) {
    m.step < now.step || (m.step == now.step && m.sub <= now.sub)
  }

  // When the current step began.
  function Begin(now: Moment): Moment {
    Moment(now.step, 0)
  }

  /** When the exchange sent from a site closes its channel, and in which step it has
      posted the wake token. In a `fickle` step a rule is shown less than it will be shown
      when it is looked at again, and may be held back for race rules on that account. */
  datatype Schedule = Schedule(done: nat -> Moment, sent: nat -> nat, fickle: nat -> bool)

  ghost predicate Causal(z: Schedule) {
    forall site :: By(z.done(site), Moment(z.sent(site), 0))
  }

  // No exchange answers in the middle of a step.
  ghost predicate Steady(z: Schedule) {
    forall site :: z.done(site).sub == 0
  }

  predicate Answered(z: Schedule, now: Moment, site: nat) {
    By(z.done(site), now)
  }

  datatype Future = Future(launch: Launch, tag: string, terminal: bool, settled: bool, cancelled: bool)

  // `pending`, `anonymous` and the walk's tables refer to futures by position.
  datatype Armed = Armed(index: nat, pending: seq<nat>, anonymous: Option<nat>, bindsAnonymous: bool, options: Options)

  datatype Walk = Walk(
    index: nat,
    options: Options,
    anonymous: Option<nat>,
    named: map<string, nat>,
    responses: map<string, Option<Message>>,
    transports: map<string, Transport>,
    futures: seq<Future>,
    armed: seq<Armed>,
    terminal: Option<nat>)

  predicate FutureIs(futures: seq<Future>, f: Option<nat>, l: Option<Launch>) {
    && (f.None? <==> l.None?)
    && (f.Some? ==> f.value < |futures| && futures[f.value].launch == l.value)
  }

  // The walk's options and tables are those of the plain reading before the current rule.
  predicate Mirrors(q: Query, w: Walk) {
    w.index <= |q.rules| &&
    var s := Path(q, w.index);
    && w.options == s.options
    && FutureIs(w.futures, w.anonymous, s.anonymous)
    && w.named.Keys == s.named.Keys
    && forall t | t in w.named ::
         && w.named[t] < |w.futures|
         && w.futures[w.named[t]].launch == s.named[t]
         && w.futures[w.named[t]].tag == t
  }

  // Each site sends at most once, in rule order, and a tag names one future for good.
  predicate Ledger(w: Walk) {
    && (forall a, b | 0 <= a < b < |w.futures| :: w.futures[a].launch.site < w.futures[b].launch.site)
    && (forall a | 0 <= a < |w.futures| ::
          && !w.futures[a].cancelled
          && w.futures[a].launch.site <= w.index
          && (w.futures[a].launch.site == w.index ==> w.terminal == Some(a))
          && (w.futures[a].tag != "" ==> w.futures[a].tag in w.named && w.named[w.futures[a].tag] == a))
  }

  // The delivered responses are those of the settled futures, and only of those.
  predicate Delivered(q: Query, z: Schedule, now: Moment, w: Walk) {
    && (forall a | 0 <= a < |w.futures| && w.futures[a].settled ::
          && Answered(z, now, w.futures[a].launch.site)
          && (w.futures[a].tag != "" ==> w.futures[a].tag in w.responses))
    && w.transports.Keys == w.responses.Keys
    && (forall t | t in w.responses ::
          && t in w.named
          && w.named[t] < |w.futures|
          && Answered(z, now, w.futures[w.named[t]].launch.site)
          && w.responses[t] == Seen(q, w.futures[w.named[t]].launch)
          && w.transports[t] == w.futures[w.named[t]].launch.transport)
  }

  // A race rule never sends while the walk goes on.
  predicate NoRaceSent(q: Query, futures: seq<Future>) {
    forall a | 0 <= a < |futures| :: !Races(q, futures[a].launch.site)
  }

  // What a route rule sends if it matches.
  predicate RouteSends(q: Query, i: nat, launch: Launch)
    requires i < |q.rules|
  {
    && launch.site == i
    && q.rules[i].action.Route?
    && q.ResolveRoute(q.rules[i].action.server, q.rules[i].action.route, Path(q, i).options) ==
         Some((launch.transport, launch.options))
  }

  // An exchange is what the rule at its site sends in the reading, or would send early.
  predicate SentRightly(q: Query, p: nat, f: Future)
    requires p <= |q.rules|
  {
    var i := f.launch.site;
    if f.terminal then i < |q.rules| && RouteSends(q, i, f.launch)
    else i < p && Sends(q, i) && f.launch == SentBy(q, i)
  }

  predicate HasSent(futures: seq<Future>, launch: Launch) {
    exists a | 0 <= a < |futures| :: futures[a].launch == launch
  }

  // Exactly what the first p rules send in the reading has been sent, but for speculative routes.
  predicate SentUpTo(q: Query, p: nat, futures: seq<Future>)
    requires p <= |q.rules|
  {
    var exact :=
      && (forall a {:trigger SentRightly(q, p, futures[a])} | 0 <= a < |futures| :: SentRightly(q, p, futures[a]))
      && (forall i | 0 <= i < p && Sends(q, i) :: HasSent(futures, SentBy(q, i)));
    exact
  }

  predicate Books(q: Query, z: Schedule, now: Moment, w: Walk) {
    var balanced :=
      Mirrors(q, w) && Ledger(w) && Delivered(q, z, now, w) && NoRaceSent(q, w.futures) && SentUpTo(q, w.index, w.futures);
    balanced
  }

  // Everything answered so far has been settled.
  predicate Current(z: Schedule, now: Moment, w: Walk) {
    forall a | 0 <= a < |w.futures| && Answered(z, now, w.futures[a].launch.site) :: w.futures[a].settled
  }

  predicate IsArmed(w: Walk, i: nat) {
    exists k | 0 <= k < |w.armed| :: w.armed[k].index == i
  }

  predicate Listed(pending: seq<nat>, futures: seq<Future>, site: nat) {
    exists p | 0 <= p < |pending| :: pending[p] < |futures| && futures[pending[p]].launch.site == site
  }

  predicate Awaits(futures: seq<Future>, a: Armed, site: nat) {
    Listed(a.pending, futures, site)
  }

  predicate Ready(z: Schedule, now: Moment, futures: seq<Future>, a: Armed) {
    forall p | 0 <= p < |a.pending| :: a.pending[p] < |futures| && Answered(z, now, futures[a.pending[p]].launch.site)
  }

  // An armed rule carries the reading of its own position and waits for all it binds.
  predicate ArmedWell(q: Query, z: Schedule, now: Moment, w: Walk, a: Armed)
    requires w.index <= |q.rules|
  {
    && a.index < w.index
    && Races(q, a.index)
    && a.options == Path(q, a.index).options
    && a.bindsAnonymous == q.rules[a.index].anonymous
    && (if a.bindsAnonymous then FutureIs(w.futures, a.anonymous, Path(q, a.index).anonymous) else a.anonymous.None?)
    && (forall p | 0 <= p < |a.pending| ::
          a.pending[p] < |w.futures| && w.futures[a.pending[p]].launch.site in Bound(q, a.index))
    && (forall x | x in Bound(q, a.index) :: Answered(z, now, x) || Awaits(w.futures, a, x))
    && (forall i | a.index < i < w.index :: !Holds(q, i))
  }

  predicate ArmedInOrder(w: Walk) {
    forall k, l | 0 <= k < l < |w.armed| :: w.armed[k].index < w.armed[l].index
  }

  predicate AllArmedWell(q: Query, z: Schedule, now: Moment, w: Walk)
    requires w.index <= |q.rules|
  {
    forall k | 0 <= k < |w.armed| :: ArmedWell(q, z, now, w, w.armed[k])
  }

  // A passed rule that would commit is a race rule still armed.
  predicate NothingMissed(q: Query, w: Walk)
    requires w.index <= |q.rules|
  {
    forall i | 0 <= i < w.index && Commits(q, i) :: Races(q, i) && IsArmed(w, i)
  }

  // A passed rule that is not armed was decided on answers that are in.
  predicate PassedAnswered(q: Query, z: Schedule, now: Moment, w: Walk)
    requires w.index <= |q.rules|
  {
    forall i | 0 <= i < w.index && !IsArmed(w, i) :: AllAnswered(q, z, now, i)
  }

  /** The barrier discipline. Armed rules are in rule order; every rule already passed
      is either still armed or decided without committing, on answers that are in;
      and no rule that holds for races has been passed while one was armed. */
  predicate Standing(q: Query, z: Schedule, now: Moment, w: Walk)
    requires w.index <= |q.rules|
  {
    var disciplined :=
      && ArmedInOrder(w)
      && AllArmedWell(q, z, now, w)
      && NothingMissed(q, w)
      && PassedAnswered(q, z, now, w);
    disciplined
  }

  predicate AllAnswered(q: Query, z: Schedule, now: Moment, i: nat)
    requires i <= |q.rules|
  {
    forall x | x in Bound(q, i) :: Answered(z, now, x)
  }

  // Outside the step that arms it, an armed rule waits for something.
  predicate NoneIdle(w: Walk) {
    forall k | 0 <= k < |w.armed| :: w.armed[k].pending != []
  }

  predicate IdleOnlyWhenNew(w: Walk) {
    forall k | 0 <= k < |w.armed| && w.armed[k].pending == [] :: w.armed[k].index + 1 == w.index
  }

  // An early speculative query is the very exchange the held rule sends if it matches.
  predicate TerminalWell(q: Query, w: Walk)
    requires w.index <= |q.rules|
  {
    w.terminal.Some? ==>
      && w.terminal.value < |w.futures|
      && var launch := w.futures[w.terminal.value].launch;
         launch.site < |q.rules| && !Races(q, launch.site) && RouteSends(q, launch.site, launch)
  }

  // What every state of a walk satisfies between two rules.
  predicate Sound(q: Query, z: Schedule, now: Moment, w: Walk) {
    var sound := Books(q, z, now, w) && Standing(q, z, now, w) && TerminalWell(q, w) && NoneIdle(w);
    sound
  }

  // ----- the plain reading, further along

  predicate SetsTag(rule: Rule, tag: string) {
    rule.action.Evaluate? && rule.action.tag == tag
  }

  // A tag in the reading was set by the rule that sent the exchange.
  lemma {:induction false} PathSites(q: Query, i: nat)
    requires i <= |q.rules|
    ensures var s := Path(q, i);
            && (s.anonymous.Some? ==> s.anonymous.value.site < i)
            && (forall t | t in s.named :: s.named[t].site < i && SetsTag(q.rules[s.named[t].site], t))
  {
    if i > 0 {
      PathSites(q, i - 1);
    }
  }

  // No entry of the tag table is ever overwritten.
  lemma TagIsFresh(q: Query, i: nat)
    requires i < |q.rules| && WellFormed(q.rules)
    requires q.rules[i].action.Evaluate? && q.rules[i].action.tag != ""
    ensures q.rules[i].action.tag !in Path(q, i).named
  {
    PathSites(q, i);
  }

  // What a rule binds by tag does not change after its own position.
  lemma {:induction false} BoundTagsAreStable(q: Query, j: nat, i: nat, t: string)
    requires j <= i <= |q.rules| && j < |q.rules| && WellFormed(q.rules)
    requires t in q.rules[j].tags
    ensures t in Path(q, i).named <==> t in Path(q, j).named
    ensures t in Path(q, i).named ==> Path(q, i).named[t] == Path(q, j).named[t]
  {
    if j < i {
      BoundTagsAreStable(q, j, i - 1, t);
      assert SetsTag(q.rules[i - 1], t) ==> i - 1 < j;
    }
  }

  // ----- time passes

  lemma LaterKeepsBooks(q: Query, z: Schedule, now: Moment, later: Moment, w: Walk)
    requires Books(q, z, now, w) && By(now, later)
    ensures Books(q, z, later, w)
  {
  }

  lemma LaterKeepsStanding(q: Query, z: Schedule, now: Moment, later: Moment, w: Walk)
    requires w.index <= |q.rules| && Standing(q, z, now, w) && By(now, later)
    ensures Standing(q, z, later, w)
  {
    forall k | 0 <= k < |w.armed|
      ensures ArmedWell(q, z, later, w, w.armed[k])
    {
      assert ArmedWell(q, z, now, w, w.armed[k]);
    }
    forall i | 0 <= i < w.index && !IsArmed(w, i)
      ensures AllAnswered(q, z, later, i)
    {
      assert AllAnswered(q, z, now, i);
    }
  }

  lemma LaterKeeps(q: Query, z: Schedule, now: Moment, later: Moment, w: Walk)
    requires By(now, later)
    ensures Books(q, z, now, w) ==> Books(q, z, later, w)
    ensures Sound(q, z, now, w) ==> Sound(q, z, later, w)
  {
    if Books(q, z, now, w) {
      LaterKeepsBooks(q, z, now, later, w);
    }
    if Sound(q, z, now, w) {
      LaterKeepsStanding(q, z, now, later, w);
    }
  }

  // ----- matching agrees with the plain reading

  // A resolved position of the walk shows the same responses as the plain reading of rule i.
  predicate Shows(q: Query, z: Schedule, now: Moment, w: Walk, i: nat)
    requires i < |q.rules|
  {
    var s := Path(q, i);
    && (forall t | t in q.rules[i].tags ::
          && (t in w.named <==> t in s.named)
          && (t in w.named ==> w.named[t] < |w.futures| && w.futures[w.named[t]].launch == s.named[t]))
    && AllAnswered(q, z, now, i)
  }

  lemma ShowsHere(q: Query, z: Schedule, now: Moment, w: Walk)
    requires Books(q, z, now, w) && w.index < |q.rules| && AllAnswered(q, z, now, w.index)
    ensures Shows(q, z, now, w, w.index)
  {
  }

  lemma ShowsArmed(q: Query, z: Schedule, now: Moment, w: Walk, a: Armed)
    requires Books(q, z, now, w) && WellFormed(q.rules)
    requires ArmedWell(q, z, now, w, a) && Ready(z, now, w.futures, a)
    ensures Shows(q, z, now, w, a.index)
  {
    forall t | t in q.rules[a.index].tags
      ensures t in w.named <==> t in Path(q, a.index).named
      ensures t in w.named ==> w.futures[w.named[t]].launch == Path(q, a.index).named[t]
    {
      BoundTagsAreStable(q, a.index, w.index, t);
    }
    forall x | x in Bound(q, a.index)
      ensures Answered(z, now, x)
    {
    }
  }

  lemma TagView(q: Query, z: Schedule, now: Moment, w: Walk, i: nat, t: string)
    requires Books(q, z, now, w) && Current(z, now, w) && i < |q.rules| && WellFormed(q.rules)
    requires Shows(q, z, now, w, i) && t in q.rules[i].tags
    ensures t in w.responses <==> t in Path(q, i).named
    ensures t in w.responses ==>
              && w.responses[t] == Seen(q, Path(q, i).named[t])
              && w.transports[t] == Path(q, i).named[t].transport
  {
    var s := Path(q, i);
    if t in s.named {
      assert s.named[t].site in Bound(q, i);
      assert w.futures[w.named[t]].settled;
    }
  }

  // A rule is shown the same named responses when they agree tag by tag.
  lemma ViewsAgree(q: Query, i: nat, s: Reading, responses: map<string, Option<Message>>)
    requires i < |q.rules|
    requires forall t | t in q.rules[i].tags ::
               && ((t in responses && responses[t].Some?) <==> (t in s.named && Seen(q, s.named[t]).Some?))
               && (t in responses && responses[t].Some? ==> responses[t] == Seen(q, s.named[t]))
    ensures q.rules[i].BoundResponses(responses, q.late(i)) == NamedSeen(q, i, s)
  {
  }

  lemma BoundResponsesAgree(q: Query, z: Schedule, now: Moment, w: Walk, i: nat)
    requires Books(q, z, now, w) && Current(z, now, w) && i < |q.rules| && WellFormed(q.rules)
    requires Shows(q, z, now, w, i)
    ensures q.rules[i].BoundResponses(w.responses, q.late(i)) == NamedSeen(q, i, Path(q, i))
  {
    forall t | t in q.rules[i].tags
      ensures t in w.responses <==> t in Path(q, i).named
      ensures t in w.responses ==> w.responses[t] == Seen(q, Path(q, i).named[t])
    {
      TagView(q, z, now, w, i, t);
    }
    ViewsAgree(q, i, Path(q, i), w.responses);
  }

  lemma MatchAgrees(q: Query, z: Schedule, now: Moment, w: Walk, i: nat, view: Option<Message>)
    requires Books(q, z, now, w) && Current(z, now, w) && i < |q.rules| && WellFormed(q.rules)
    requires Shows(q, z, now, w, i)
    requires q.rules[i].anonymous ==> view == AnonymousSeen(q, Path(q, i))
    ensures q.rules[i].Match(view, w.responses, q.late(i)) == Matches(q, i, Path(q, i))
  {
    BoundResponsesAgree(q, z, now, w, i);
  }

  // ----- the verdict on an armed rule

  // A race rule that answers with the anonymous response binds it.
  lemma RespondBindsSource(q: Query, i: nat)
    requires WellFormed(q.rules) && Races(q, i)
    requires q.rules[i].action.Respond? && q.rules[i].respondTag == ""
    ensures q.rules[i].anonymous
  {
  }

  lemma WaitsOnlyForBound(q: Query, z: Schedule, now: Moment, w: Walk, a: Armed)
    requires w.index <= |q.rules| && ArmedWell(q, z, now, w, a)
    ensures a.pending != [] ==> Bound(q, a.index) != {}
  {
    if a.pending != [] {
      assert w.futures[a.pending[0]].launch.site in Bound(q, a.index);
    }
  }

  // A rule armed without the anonymous response it binds is judged before one can appear.
  lemma ArmedWithoutAnonymous(q: Query, z: Schedule, now: Moment, w: Walk, a: Armed)
    requires WellFormed(q.rules) && Mirrors(q, w) && ArmedWell(q, z, now, w, a)
    requires q.rules[a.index].action.Respond? && q.rules[a.index].respondTag == ""
    requires a.anonymous.None? && (a.pending == [] ==> a.index + 1 == w.index)
    ensures w.anonymous.None? && Path(q, a.index).anonymous.None?
  {
    RespondBindsSource(q, a.index);
    WaitsOnlyForBound(q, z, now, w, a);
    assert Bound(q, a.index) == {};
  }
}
