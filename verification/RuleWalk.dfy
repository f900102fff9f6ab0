/** The concurrent rule walk: exchanges are in flight while later rules are looked at,
    race rules are armed and swept as answers come in, and a blocked walk is resumed
    through a wake channel of capacity one. */
module RuleWalk {
  import opened Wrappers
  import opened DnsRules
  import opened SequentialReading
  import opened WalkState
  import opened WalkSteps

  // ----- exchanges still owed to a blocked walk

  function Unsent(futures: seq<Future>, z: Schedule, step: nat): nat {
    if futures == [] then 0
    else Unsent(futures[..|futures| - 1], z, step) + if z.sent(futures[|futures| - 1].launch.site) > step then 1 else 0
  }

  function Unanswered(futures: seq<Future>, z: Schedule, now: Moment): nat {
    if futures == [] then 0
    else Unanswered(futures[..|futures| - 1], z, now) + if Answered(z, now, futures[|futures| - 1].launch.site) then 0 else 1
  }

  lemma {:induction false} UnsentDrops(futures: seq<Future>, z: Schedule, step: nat)
    ensures Unsent(futures, z, step + 1) <= Unsent(futures, z, step)
    ensures (exists i | 0 <= i < |futures| :: z.sent(futures[i].launch.site) == step + 1) ==>
              Unsent(futures, z, step + 1) < Unsent(futures, z, step)
  {
    if futures != [] {
      var rest := futures[..|futures| - 1];
      UnsentDrops(rest, z, step);
      if i :| 0 <= i < |futures| && z.sent(futures[i].launch.site) == step + 1 {
        assert i < |rest| ==> z.sent(rest[i].launch.site) == step + 1;
      }
    }
  }

  predicate AnsweredSince(z: Schedule, now: Moment, later: Moment, site: nat) {
    !Answered(z, now, site) && Answered(z, later, site)
  }

  lemma {:induction false} UnansweredDrops(futures: seq<Future>, z: Schedule, now: Moment, later: Moment)
    requires By(now, later)
    ensures Unanswered(futures, z, later) <= Unanswered(futures, z, now)
    ensures (exists i | 0 <= i < |futures| :: AnsweredSince(z, now, later, futures[i].launch.site)) ==>
              Unanswered(futures, z, later) < Unanswered(futures, z, now)
  {
    if futures != [] {
      var rest := futures[..|futures| - 1];
      UnansweredDrops(rest, z, now, later);
      if i :| 0 <= i < |futures| && AnsweredSince(z, now, later, futures[i].launch.site) {
        assert i < |rest| ==> AnsweredSince(z, now, later, rest[i].launch.site);
      }
    }
  }

  lemma {:induction false} CountsIgnoreSettling(f: seq<Future>, g: seq<Future>, z: Schedule, now: Moment)
    requires SameFutures(f, g)
    ensures Unsent(f, z, now.step) == Unsent(g, z, now.step) && Unanswered(f, z, now) == Unanswered(g, z, now)
  {
    SameFuturesFacts(f, g);
    if f != [] {
      CountsIgnoreSettling(f[..|f| - 1], g[..|g| - 1], z, now);
    }
  }

  // ----- what a walk hands to its driver

  // A committed exchange is either still to be sent, or was sent early.
  datatype PendingExchange = ToSend(launch: Launch) | InFlight(future: nat)

  datatype Suspension = Await(future: nat) | Drain | Commit(pending: PendingExchange)

  datatype Step = Finished(reply: Reply) | Suspended(suspension: Suspension)

  // All listed futures are bound by rule i and not answered yet.
  predicate ListedWell(q: Query, z: Schedule, now: Moment, i: nat, pending: seq<nat>, futures: seq<Future>)
    requires i <= |q.rules|
  {
    forall p | 0 <= p < |pending| ::
      && pending[p] < |futures|
      && !Answered(z, now, futures[pending[p]].launch.site)
      && futures[pending[p]].launch.site in Bound(q, i)
  }

  // Every exchange the first n tags of rule i bind has answered or is listed.
  ghost predicate TagsCovered(q: Query, z: Schedule, now: Moment, i: nat, n: nat, pending: seq<nat>, futures: seq<Future>)
    requires i < |q.rules| && n <= |q.rules[i].tags|
  {
    forall k | 0 <= k < n && q.rules[i].tags[k] in Path(q, i).named ::
      var site := Path(q, i).named[q.rules[i].tags[k]].site;
      Answered(z, now, site) || Listed(pending, futures, site)
  }

  lemma TagsCoverBound(q: Query, z: Schedule, now: Moment, i: nat, pending: seq<nat>, futures: seq<Future>)
    requires i < |q.rules| && TagsCovered(q, z, now, i, |q.rules[i].tags|, pending, futures)
    requires q.rules[i].anonymous && Path(q, i).anonymous.Some? ==>
               var site := Path(q, i).anonymous.value.site; Answered(z, now, site) || Listed(pending, futures, site)
    ensures forall x | x in Bound(q, i) :: Answered(z, now, x) || Listed(pending, futures, x)
  {
    var tags, s := q.rules[i].tags, Path(q, i);
    forall t | t in tags && t in s.named
      ensures Answered(z, now, s.named[t].site) || Listed(pending, futures, s.named[t].site)
    {
      var k :| 0 <= k < |tags| && tags[k] == t;
    }
  }

  lemma ListedGrows(pending: seq<nat>, futures: seq<Future>, f: nat)
    requires f < |futures|
    ensures Listed(pending + [f], futures, futures[f].launch.site)
    ensures forall x | Listed(pending, futures, x) :: Listed(pending + [f], futures, x)
  {
    assert (pending + [f])[|pending|] == f;
    forall x | Listed(pending, futures, x)
      ensures Listed(pending + [f], futures, x)
    {
      var p :| 0 <= p < |pending| && pending[p] < |futures| && futures[pending[p]].launch.site == x;
      assert (pending + [f])[p] == pending[p];
    }
  }

  lemma ArmedUnready(q: Query, z: Schedule, now: Moment, w: Walk, pending: seq<nat>)
    requires w.index < |q.rules| && pending != [] && ListedWell(q, z, now, w.index, pending, w.futures)
    ensures !AllAnswered(q, z, now, w.index)
    ensures NoneReady(z, now, w, |w.armed|) ==>
              var w' := Arm(w, ArmedHere(q, w, pending)); NoneReady(z, now, w', |w'.armed|)
  {
    assert !Answered(z, now, w.futures[pending[0]].launch.site);
    assert !Ready(z, now, w.futures, ArmedHere(q, w, pending));
  }

  // What is to be sent has not been, and what is in flight was sent.
  predicate Sendable(pending: PendingExchange, futures: seq<Future>) {
    match pending
    case ToSend(launch) => NotYetSent(futures, launch.site)
    case InFlight(f) => f < |futures|
  }

  // What a committed exchange will send, or has sent.
  function PendingDecision(pending: PendingExchange, futures: seq<Future>): Decision
    requires pending.InFlight? ==> pending.future < |futures|
  {
    match pending
    case ToSend(launch) => Exchange(launch)
    case InFlight(f) => Exchange(futures[f].launch)
  }

  // The step ends the walk with decision d.
  predicate Delivers(step: Step, futures: seq<Future>, d: Decision) {
    match step
    case Finished(reply) => d == Final(reply)
    case Suspended(Commit(pending)) =>
      (pending.InFlight? ==> pending.future < |futures|) && PendingDecision(pending, futures) == d
    case _ => false
  }

  // The decision of some winning rule, of a walk that has passed `passed` rules.
  ghost predicate Winning(q: Query, steady: bool, passed: nat, d: Decision) {
    exists j: nat :: j <= passed <= |q.rules| && Winner(q, steady, j) && DecisionAt(q, j) == d
  }

  lemma EndsIsWinning(q: Query, z: Schedule, now: Moment, passed: nat, d: Decision)
    requires passed <= |q.rules|
    ensures Ends(q, z, now, passed, d) ==> Winning(q, Steady(z), passed, d)
  {
  }

  predicate NoneCancelled(futures: seq<Future>) {
    forall a | 0 <= a < |futures| :: !futures[a].cancelled
  }

  predicate AllCancelled(futures: seq<Future>) {
    forall a | 0 <= a < |futures| :: futures[a].cancelled
  }

  // Exchanges were sent in rule order, so no rule sent twice.
  predicate OncePerRule(futures: seq<Future>) {
    forall a, b | 0 <= a < b < |futures| :: futures[a].launch.site < futures[b].launch.site
  }

  /** Some armed rules of `before` have been disarmed since the step began, when none of
      the first n left was ready. */
  ghost predicate SweptSoFar(q: Query, z: Schedule, now: Moment, before: Walk, w: Walk, n: nat)
    requires w.index <= |q.rules|
  {
    var swept :=
      && n <= |w.armed|
      && Polled(before, w)
      && NoneReady(z, Begin(now), w, n)
      && (before.armed != [] ==>
            && Standing(q, z, Begin(now), before)
            && Standing(q, z, now, w)
            && IdleOnlyWhenNew(w)
            && Reach(w, n) <= w.index
            && NoneFires(q, z, now.step, Reach(w, n))
            && (n < |w.armed| ==> now.sub <= w.armed[n].index));
    swept
  }

  // How far a sweep has come that has passed n armed rules.
  function Reach(w: Walk, n: nat): nat {
    if n < |w.armed| then w.armed[n].index else w.index
  }

  predicate NotYetSent(futures: seq<Future>, site: nat) {
    forall a | 0 <= a < |futures| :: futures[a].launch.site != site
  }

  // What was sent in all: by the walk, and last of all the exchange committed to.
  function SentInAll(futures: seq<Future>, last: Option<Launch>): (sent: seq<Launch>)
    ensures forall a | 0 <= a < |futures| :: a < |sent| && sent[a] == futures[a].launch
    ensures last.Some? ==> |sent| == |futures| + 1 && sent[|futures|] == last.value
    ensures last.None? ==> |sent| == |futures|
  {
    seq(|futures|, a requires 0 <= a < |futures| => futures[a].launch) + if last.Some? then [last.value] else []
  }

  predicate OnceEach(sent: seq<Launch>) {
    forall a, b | 0 <= a < b < |sent| :: sent[a].site != sent[b].site
  }

  // The walk sent in rule order, and what was sent last of all is of another rule.
  predicate SentOnce(futures: seq<Future>, last: Option<Launch>) {
    OncePerRule(futures) && (last.Some? ==> NotYetSent(futures, last.value.site))
  }

  lemma SentOnceEach(futures: seq<Future>, last: Option<Launch>)
    requires SentOnce(futures, last)
    ensures OnceEach(SentInAll(futures, last))
  {
  }

  lemma DecisionSite(q: Query, j: nat)
    requires j <= |q.rules| && Commits(q, j)
    ensures DecisionAt(q, j).Exchange? ==> DecisionAt(q, j).launch.site == j
  {
  }

  // What a swept race rule commits to has not been sent.
  lemma SweptIsUnsent(q: Query, z: Schedule, now: Moment, w: Walk, j: nat)
    requires Books(q, z, now, w) && Races(q, j) && Commits(q, j)
    ensures DecisionAt(q, j).Exchange? ==> NotYetSent(w.futures, DecisionAt(q, j).launch.site)
  {
    DecisionSite(q, j);
  }

  // Neither has what an ordinary rule commits to, unless it was sent early.
  lemma HeldIsUnsent(q: Query, z: Schedule, now: Moment, w: Walk)
    requires Books(q, z, now, w)
    requires w.terminal.Some? ==> w.terminal.value < |w.futures| && w.futures[w.terminal.value].launch.site != w.index
    ensures NotYetSent(w.futures, w.index)
  {
  }

  // An exchange cancelled before its answer was read counts as failed.
  function DeliveredReply(q: Query, f: Future): Reply {
    if f.cancelled then Reply(None, Some(f.launch.transport), None, Some(Canceled)) else ReplyOf(q, f.launch)
  }

  const ContextEnded := Reply(None, None, None, Some(ContextDone))

  /** The reply is that of a winning rule, and what was sent is exactly what the rules the
      walk has passed send, speculative routes and the exchange committed to. */
  ghost predicate RepliesBy(q: Query, steady: bool, reply: Reply, futures: seq<Future>, last: Option<Launch>, p: nat, d: Decision) {
    && p <= |q.rules|
    && Winning(q, steady, p, d)
    && reply == Complete(q, d)
    && (d.Exchange? ==> d.launch in SentInAll(futures, last))
    && (last.Some? ==> d == Exchange(last.value))
    && SentUpTo(q, p, futures)
  }

  // The reply of some winning rule; or, if the query's context may end, that it did.
  ghost predicate Permitted(q: Query, steady: bool, cancellable: bool, reply: Reply, futures: seq<Future>, last: Option<Launch>) {
    || (cancellable && reply == ContextEnded)
    || exists p: nat, d: Decision :: RepliesBy(q, steady, reply, futures, last, p, d)
  }

  lemma PendingStays(pending: PendingExchange, f: seq<Future>, g: seq<Future>)
    requires SameFutures(f, g) && (pending.InFlight? ==> pending.future < |f|)
    ensures PendingDecision(pending, f) == PendingDecision(pending, g)
  {
    SameFuturesFacts(f, g);
  }

  lemma MarkStays(s: Suspension, m: Mark, f: seq<Future>, g: seq<Future>, z: Schedule)
    requires SameFutures(f, g)
    ensures Unanswered(f, z, m.made) == Unanswered(g, z, m.made)
    ensures s.Await? && s.future < |f| ==> g[s.future].launch == f[s.future].launch
  {
    SameFuturesFacts(f, g);
    CountsIgnoreSettling(f, g, z, m.made);
  }

  // What rule i looks at: the exchanges it binds, and the one a `respond` action answers with.
  function Consulted(q: Query, i: nat): set<nat>
    requires i <= |q.rules|
  {
    Bound(q, i) +
    if i < |q.rules| && !Races(q, i) && q.rules[i].action.Respond? && q.rules[i].respondTag == "" && Path(q, i).anonymous.Some?
    then {Path(q, i).anonymous.value.site} else {}
  }

  // Rule i commits, and has its answers in when a sweep in the given step looks at it.
  predicate Fires(q: Query, z: Schedule, step: nat, i: nat)
    requires i <= |q.rules|
  {
    Commits(q, i) && AllAnswered(q, z, Moment(step, i + 1), i)
  }

  predicate NoneFires(q: Query, z: Schedule, step: nat, n: nat)
    requires n <= |q.rules|
  {
    forall i | 0 <= i < n :: !Fires(q, z, step, i)
  }

  lemma QuietIsSettled(q: Query, z: Schedule, step: nat, i: nat)
    requires i < |q.rules| && NoneFires(q, z, step, i + 1) && AllAnswered(q, z, Moment(step, 0), i)
    ensures !Commits(q, i)
  {
    assert !Fires(q, z, step, i);
  }

  // The sweep in progress is looking at rule j, which fires as the first one.
  predicate FirstToFire(q: Query, z: Schedule, now: Moment, j: nat)
    requires j <= |q.rules|
  {
    now.sub == j + 1 && Fires(q, z, now.step, j) && NoneFires(q, z, now.step, j)
  }

  /** The walk, having passed `passed` rules, ends with winner j: the first race rule
      already passed to fire, or the ordinary rule it stands at. */
  ghost predicate EndsAt(q: Query, z: Schedule, now: Moment, passed: nat, j: nat, d: Decision) {
    && j <= |q.rules|
    && (if Races(q, j) then j < passed && FirstToFire(q, z, now, j) else j == passed)
    && Winner(q, Steady(z), j)
    && DecisionAt(q, j) == d
  }

  ghost predicate Ends(q: Query, z: Schedule, now: Moment, passed: nat, d: Decision) {
    exists j: nat :: EndsAt(q, z, now, passed, j, d)
  }

  /** What a sweep in the given step comes to, of a walk that has passed `passed` rules:
      the decision of the first race rule to fire, or nothing if none does. */
  ghost predicate SweptTo(q: Query, z: Schedule, step: nat, passed: nat, d: Option<Decision>)
    requires passed <= |q.rules|
  {
    match d
    case None => NoneFires(q, z, step, passed)
    case Some(decision) => exists j: nat :: Races(q, j) && EndsAt(q, z, Moment(step, j + 1), passed, j, decision)
  }

  predicate NoneReady(z: Schedule, now: Moment, w: Walk, n: nat)
    requires n <= |w.armed|
  {
    forall k | 0 <= k < n :: !Ready(z, now, w.futures, w.armed[k])
  }

  lemma DisarmKeepsOrder(w: Walk, k: nat)
    requires k < |w.armed|
    ensures IdleOnlyWhenNew(w) ==> IdleOnlyWhenNew(Disarm(w, k))
  {
  }

  // Responses have been delivered and one rule disarmed.
  predicate Disarmed(before: Walk, w: Walk, k: nat) {
    && k < |before.armed|
    && w == before.(futures := w.futures, responses := w.responses, transports := w.transports, armed := w.armed)
    && SameFutures(before.futures, w.futures)
    && w.armed == before.armed[..k] + before.armed[k + 1..]
  }

  lemma SettledKeepsReady(z: Schedule, now: Moment, w: Walk, w': Walk, k: nat)
    requires DeliveredFrom(w, w') && k < |w.armed| && Ready(z, now, w.futures, w.armed[k])
    ensures Ready(z, now, w'.futures, w'.armed[k])
  {
    SameFuturesFacts(w.futures, w'.futures);
  }

  // ----- the course of a sweep

  // Between two armed rules there is none that commits.
  lemma NextReach(q: Query, z: Schedule, now: Moment, w: Walk, n: nat)
    requires w.index <= |q.rules| && Standing(q, z, now, w) && n < |w.armed|
    requires NoneFires(q, z, now.step, w.armed[n].index) && !Fires(q, z, now.step, w.armed[n].index)
    ensures Reach(w, n + 1) <= w.index && NoneFires(q, z, now.step, Reach(w, n + 1))
  {
    assert ArmedWell(q, z, now, w, w.armed[n]);
    assert n + 1 < |w.armed| ==> ArmedWell(q, z, now, w, w.armed[n + 1]);
    forall i | 0 <= i < Reach(w, n + 1)
      ensures !Fires(q, z, now.step, i)
    {
      if w.armed[n].index < i && Commits(q, i) {
        var k := ArmedAt(q, z, now, w, i);
      }
    }
  }

  lemma FirstReach(q: Query, z: Schedule, now: Moment, w: Walk)
    requires w.index <= |q.rules| && Standing(q, z, now, w)
    ensures Reach(w, 0) <= w.index && NoneFires(q, z, now.step, Reach(w, 0))
  {
    assert w.armed != [] ==> ArmedWell(q, z, now, w, w.armed[0]);
    forall i | 0 <= i < Reach(w, 0)
      ensures !Fires(q, z, now.step, i)
    {
      if Commits(q, i) {
        var k := ArmedAt(q, z, now, w, i);
      }
    }
  }

  lemma SweptStart(q: Query, z: Schedule, now: Moment, w: Walk)
    requires w.index <= |q.rules| && now.sub == 0
    requires w.armed != [] ==> Standing(q, z, now, w) && IdleOnlyWhenNew(w)
    ensures SweptSoFar(q, z, now, w, w, 0)
  {
    if w.armed != [] {
      FirstReach(q, z, now, w);
    }
  }

  // The rule at n is looked at.
  lemma SweptLater(q: Query, z: Schedule, now: Moment, later: Moment, before: Walk, w: Walk, n: nat)
    requires w.index <= |q.rules| && SweptSoFar(q, z, now, before, w, n) && n < |w.armed|
    requires later.step == now.step && later.sub == w.armed[n].index + 1
    ensures By(now, later) && Begin(later) == Begin(now) && Standing(q, z, later, w)
  {
    LaterKeepsStanding(q, z, now, later, w);
  }

  // A rule that is not ready now was not ready when the step began.
  lemma SweptPast(q: Query, z: Schedule, now: Moment, later: Moment, before: Walk, w: Walk, n: nat)
    requires w.index <= |q.rules| && SweptSoFar(q, z, now, before, w, n) && n < |w.armed|
    requires later.step == now.step && later.sub == w.armed[n].index + 1
    requires !Ready(z, later, w.futures, w.armed[n])
    ensures SweptSoFar(q, z, later, before, w, n + 1)
  {
    SweptLater(q, z, now, later, before, w, n);
    assert !Ready(z, Begin(now), w.futures, w.armed[n]);
    assert ArmedWell(q, z, later, w, w.armed[n]);
    UnreadyWaits(q, z, later, later, w, w.armed[n]);
    NextReach(q, z, later, w, n);
  }

  lemma DisarmedIsPolled(before: Walk, w: Walk, w': Walk, n: nat)
    requires Polled(before, w) && Disarmed(w, w', n)
    ensures Polled(before, w')
  {
    SameFuturesFacts(before.futures, w.futures);
    SameFuturesFacts(w.futures, w'.futures);
  }

  lemma DisarmedStaysUnready(z: Schedule, since: Moment, w: Walk, w': Walk, n: nat)
    requires Disarmed(w, w', n) && NoneReady(z, since, w, n)
    ensures NoneReady(z, since, w', n)
  {
    SameFuturesFacts(w.futures, w'.futures);
    forall k | 0 <= k < n
      ensures !Ready(z, since, w'.futures, w'.armed[k])
    {
      assert w'.armed[k] == w.armed[k] && !Ready(z, since, w.futures, w.armed[k]);
    }
  }

  lemma SweptDisarmed(q: Query, z: Schedule, now: Moment, later: Moment, before: Walk, w: Walk, w': Walk, n: nat)
    requires w.index <= |q.rules| && SweptSoFar(q, z, now, before, w, n) && n < |w.armed| && Disarmed(w, w', n)
    requires later.step == now.step && later.sub == w.armed[n].index + 1
    requires w.armed[n].index < |q.rules| && !Commits(q, w.armed[n].index)
    requires Standing(q, z, later, w') && IdleOnlyWhenNew(w')
    ensures SweptSoFar(q, z, later, before, w', n)
  {
    SweptLater(q, z, now, later, before, w, n);
    DisarmedIsPolled(before, w, w', n);
    DisarmedStaysUnready(z, Begin(now), w, w', n);
    NextReach(q, z, later, w, n);
    assert n < |w'.armed| ==> w'.armed[n] == w.armed[n + 1];
  }

  lemma SweptDone(q: Query, z: Schedule, now: Moment, before: Walk, w: Walk)
    requires w.index <= |q.rules| && Polled(before, w)
    ensures TerminalWell(q, before) ==> TerminalWell(q, w)
    ensures SweptSoFar(q, z, now, before, w, |w.armed|) && Standing(q, z, Begin(now), before) ==>
              Standing(q, z, now, w) && NoneFires(q, z, now.step, w.index) && NoneIdle(w)
  {
    SameFuturesFacts(before.futures, w.futures);
    if SweptSoFar(q, z, now, before, w, |w.armed|) && Standing(q, z, Begin(now), before) {
      if before.armed == [] {
        LaterKeepsStanding(q, z, Begin(now), now, before);
        PolledKeepsStanding(q, z, now, before, w);
        FirstReach(q, z, now, w);
      }
      FoundNone(z, Begin(now), w);
    }
  }

  lemma PolledKeepsStanding(q: Query, z: Schedule, now: Moment, before: Walk, w: Walk)
    requires w.index <= |q.rules| && Polled(before, w) && w.armed == before.armed && Standing(q, z, now, before)
    ensures Standing(q, z, now, w)
  {
    SameFuturesFacts(before.futures, w.futures);
    forall k | 0 <= k < |w.armed|
      ensures ArmedWell(q, z, now, w, w.armed[k])
    {
      ArmedWellCarries(q, z, now, before, w, w.armed[k]);
    }
    assert forall i :: IsArmed(before, i) <==> IsArmed(w, i);
  }

  // Where a passed rule that commits is armed.
  lemma ArmedAt(q: Query, z: Schedule, now: Moment, w: Walk, i: nat) returns (k: nat)
    requires w.index <= |q.rules| && Standing(q, z, now, w) && i < w.index && Commits(q, i)
    ensures k < |w.armed| && w.armed[k].index == i && ArmedWell(q, z, now, w, w.armed[k])
    ensures forall l | k <= l < |w.armed| :: i <= w.armed[l].index
  {
    assert IsArmed(w, i);
    k :| 0 <= k < |w.armed| && w.armed[k].index == i;
    assert ArmedWell(q, z, now, w, w.armed[k]);
  }

  // In a steady schedule what was not ready when the step began is not ready now.
  lemma SteadyStaysUnready(z: Schedule, now: Moment, w: Walk, n: nat)
    requires n <= |w.armed| && Steady(z) && NoneReady(z, Begin(now), w, n)
    ensures NoneReady(z, now, w, n)
  {
    forall k | 0 <= k < n
      ensures !Ready(z, now, w.futures, w.armed[k])
    {
      assert !Ready(z, Begin(now), w.futures, w.armed[k]);
    }
  }

  // The rule at n is ready when it is looked at, and commits: it is the first one to do so.
  lemma FoundFirst(q: Query, z: Schedule, began: Moment, now: Moment, before: Walk, w: Walk, n: nat, d: Decision)
    requires w.index <= |q.rules| && n < |w.armed| && SweptSoFar(q, z, began, before, w, n)
    requires now.step == began.step && now.sub == w.armed[n].index + 1
    requires Ready(z, now, w.futures, w.armed[n]) && w.armed[n].index < |q.rules|
    requires Judge(q, w.armed[n].index, Path(q, w.armed[n].index)) == Some(d)
    ensures EndsAt(q, z, now, w.index, w.armed[n].index, d)
  {
    SweptLater(q, z, began, now, before, w, n);
    var j := w.armed[n].index;
    assert ArmedWell(q, z, now, w, w.armed[n]);
    ReadyMeansAnswered(q, z, now, w, w.armed[n]);
    SameFuturesFacts(before.futures, w.futures);
    if Steady(z) {
      SteadyStaysUnready(z, now, w, n);
      SweptRuleWins(q, z, now, w, w, true, n);
    } else {
      SweptRuleWins(q, z, Begin(now), before, w, false, n);
    }
  }

  lemma FoundNone(z: Schedule, since: Moment, w: Walk)
    requires NoneReady(z, since, w, |w.armed|)
    ensures NoneIdle(w)
  {
    forall k | 0 <= k < |w.armed|
      ensures w.armed[k].pending != []
    {
      assert !Ready(z, since, w.futures, w.armed[k]);
    }
  }

  predicate SpeculatedFrom(before: Walk, w: Walk) {
    before.terminal.None? && w.terminal.Some? && w.index == before.index && w.armed == before.armed && Extends(before.futures, w.futures)
  }

  // The walk stands where it stood; at most some responses have been delivered.
  predicate Halted(before: Walk, w: Walk) {
    DeliveredFrom(before, w)
  }

  lemma HaltedCompose(before: Walk, middle: Walk, w: Walk)
    requires Halted(before, middle)
    ensures w == middle ==> Halted(before, w)
    ensures SpeculatedFrom(middle, w) ==> SpeculatedFrom(before, w)
  {
    SameFuturesFacts(before.futures, middle.futures);
  }

  lemma DeliveryKeepsReadiness(q: Query, z: Schedule, now: Moment, before: Walk, w: Walk)
    requires DeliveredFrom(before, w)
    ensures NoneReady(z, now, before, |before.armed|) ==> NoneReady(z, now, w, |w.armed|)
  {
    SameFuturesFacts(before.futures, w.futures);
    forall k | 0 <= k < |w.armed|
      ensures Ready(z, now, w.futures, w.armed[k]) ==> Ready(z, now, before.futures, before.armed[k])
    {
    }
  }

  lemma GrowthKeepsReadiness(q: Query, z: Schedule, now: Moment, before: Walk, w: Walk)
    requires Extends(before.futures, w.futures) && w.armed == before.armed
    ensures Sound(q, z, now, before) && NoneReady(z, now, before, |before.armed|) ==> NoneReady(z, now, w, |w.armed|)
  {
    assert Sound(q, z, now, before) ==> forall k | 0 <= k < |before.armed| :: ArmedWell(q, z, now, before, before.armed[k]);
    forall k | 0 <= k < |w.armed|
      ensures Sound(q, z, now, before) && Ready(z, now, w.futures, w.armed[k]) ==> Ready(z, now, before.futures, before.armed[k])
    {
    }
  }

  // Between two looks at the rules only deliveries and disarmings happen.
  predicate Polled(before: Walk, w: Walk) {
    && w == before.(futures := w.futures, responses := w.responses, transports := w.transports, armed := w.armed)
    && SameFutures(before.futures, w.futures)
    && |w.armed| <= |before.armed|
    && forall a | a in w.armed :: a in before.armed
  }

  lemma PolledCompose(before: Walk, middle: Walk, w: Walk)
    requires DeliveredFrom(before, middle) && Polled(middle, w)
    ensures Polled(before, w)
  {
    SameFuturesFacts(before.futures, middle.futures);
    SameFuturesFacts(middle.futures, w.futures);
    forall a | 0 <= a < |before.futures|
      ensures w.futures[a].(settled := true) == before.futures[a].(settled := true)
    {
      assert middle.futures[a].(settled := true) == before.futures[a].(settled := true);
    }
  }

  // When a suspension was made: the time, the rules armed and the exchanges unanswered then.
  datatype Mark = Mark(made: Moment, armed: nat, unanswered: nat)

  function Rank(s: Suspension, m: Mark): nat {
    match s
    case Commit(_) => 0
    case Drain => 1
    case Await(_) => 2 + m.unanswered
  }

  // An ordinary rule that commits with nothing armed ends the walk.
  lemma HeldRuleEnds(q: Query, z: Schedule, now: Moment, w: Walk)
    requires w.index <= |q.rules| && w.armed == [] && Commits(q, w.index) && !Races(q, w.index)
    ensures Sound(q, z, now, w) ==> Ends(q, z, now, w.index, DecisionAt(q, w.index))
  {
    if Sound(q, z, now, w) {
      HeldRuleWins(q, z, now, w);
      assert EndsAt(q, z, now, w.index, w.index, DecisionAt(q, w.index));
    }
  }

  // ----- schedules that let a chosen winner win

  // The exchanges answered at once by a schedule that favours rule j.
  function Early(q: Query, j: nat): set<nat>
    requires j <= |q.rules|
  {
    MustAnswer(q, true, j) + Consulted(q, j)
  }

  // What rule j needs answers at once; everything else answers only after a whole walk.
  ghost predicate Favours(q: Query, z: Schedule, j: nat)
    requires j <= |q.rules|
  {
    && (forall site {:trigger FavourAt(q, j, site)} :: z.done(site) == FavourAt(q, j, site))
    && forall step :: !z.fickle(step)
  }

  function FavourAt(q: Query, j: nat, site: nat): Moment
    requires j <= |q.rules|
  {
    Moment(if site in Early(q, j) then 0 else |q.rules| + 2, 0)
  }

  // Any rule can be favoured.
  lemma FavouringSchedule(q: Query, j: nat) returns (z: Schedule)
    requires j <= |q.rules|
    ensures Causal(z) && Steady(z) && Favours(q, z, j)
  {
    var early, late := Early(q, j), |q.rules| + 2;
    z := Schedule(site => Moment(if site in early then 0 else late, 0), site => late, step => false);
  }

  lemma FavoursMeansEarly(q: Query, z: Schedule, j: nat, now: Moment, site: nat)
    requires j <= |q.rules| && Favours(q, z, j) && now.step <= |q.rules| + 1
    ensures Answered(z, now, site) <==> site in Early(q, j)
  {
    assert z.done(site) == FavourAt(q, j, site);
  }

  lemma FavouredStaysUnready(q: Query, z: Schedule, j: nat, now: Moment, w: Walk)
    requires j <= |q.rules| && Favours(q, z, j) && now.step < |q.rules| + 1
    ensures NoneReady(z, Begin(now), w, |w.armed|) ==> NoneReady(z, Moment(now.step + 1, 0), w, |w.armed|)
  {
    var next := Moment(now.step + 1, 0);
    forall k | 0 <= k < |w.armed|
      ensures Ready(z, next, w.futures, w.armed[k]) ==> Ready(z, Begin(now), w.futures, w.armed[k])
    {
      forall site
        ensures Answered(z, Begin(now), site) <==> Answered(z, next, site)
      {
        assert z.done(site) == FavourAt(q, j, site);
      }
    }
  }

  predicate OnCourse(z: Schedule, aim: nat, now: Moment, w: Walk) {
    var onCourse := w.index <= aim && now.step == w.index && NoneReady(z, Begin(now), w, |w.armed|);
    onCourse
  }

  // A favoured walk never has to wait on its way to rule j.
  lemma FavouredAwaitsNothing(q: Query, z: Schedule, j: nat, now: Moment, i: nat, site: nat)
    requires i <= j <= |q.rules| && Winner(q, true, j) && Favours(q, z, j) && now.step <= |q.rules| + 1
    requires !Races(q, i) && site in if Commits(q, i) then Consulted(q, i) else Bound(q, i)
    ensures Answered(z, now, site)
  {
    FavoursMeansEarly(q, z, j, now, site);
    if i < j {
      assert DecidedBefore(q, i, j);
    }
  }

  lemma FavouredHasAllReady(q: Query, z: Schedule, j: nat, now: Moment, w: Walk)
    requires w.index <= j <= |q.rules| && Favours(q, z, j) && now.step <= |q.rules| + 1
    requires Standing(q, z, now, w) && Holds(q, w.index)
    ensures forall k | 0 <= k < |w.armed| :: Ready(z, Begin(now), w.futures, w.armed[k])
  {
    forall k, p | 0 <= k < |w.armed| && 0 <= p < |w.armed[k].pending|
      ensures w.armed[k].pending[p] < |w.futures| && Answered(z, Begin(now), w.futures[w.armed[k].pending[p]].launch.site)
    {
      var a := w.armed[k];
      assert ArmedWell(q, z, now, w, a);
      assert DecidedBefore(q, a.index, j);
      FavoursMeansEarly(q, z, j, Begin(now), w.futures[a.pending[p]].launch.site);
    }
  }

  lemma NoneOfAll(z: Schedule, now: Moment, w: Walk)
    ensures NoneReady(z, now, w, |w.armed|) && (forall k | 0 <= k < |w.armed| :: Ready(z, now, w.futures, w.armed[k])) ==>
              w.armed == []
  {
    if w.armed != [] && Ready(z, now, w.futures, w.armed[0]) {
      assert !NoneReady(z, now, w, |w.armed|);
    }
  }

  lemma FavouredDrainsNothing(q: Query, z: Schedule, j: nat, now: Moment, w: Walk)
    requires w.index <= j <= |q.rules| && Favours(q, z, j) && now.step <= |q.rules| + 1
    requires Standing(q, z, now, w) && NoneReady(z, Begin(now), w, |w.armed|) && Holds(q, w.index)
    ensures w.armed == []
  {
    FavouredHasAllReady(q, z, j, now, w);
    NoneOfAll(z, Begin(now), w);
  }

  lemma FavouredBindsEarly(q: Query, z: Schedule, j: nat, now: Moment)
    requires j <= |q.rules| && Favours(q, z, j) && now.step <= |q.rules| + 1
    ensures AllAnswered(q, z, now, j)
  {
    forall x | x in Bound(q, j)
      ensures Answered(z, now, x)
    {
      FavoursMeansEarly(q, z, j, now, x);
    }
  }

  lemma FavouredRaceIsEarly(q: Query, z: Schedule, j: nat, now: Moment, e: nat)
    requires j <= |q.rules| && Favours(q, z, j) && now.step <= |q.rules| + 1 && Races(q, j)
    requires e <= |q.rules| && AllAnswered(q, z, now, e)
    ensures Bound(q, e) <= MustAnswer(q, true, j)
  {
    forall x | x in Bound(q, e)
      ensures x in MustAnswer(q, true, j)
    {
      FavoursMeansEarly(q, z, j, now, x);
    }
  }

  // Whoever ends a favoured walk that has come as far as rule j, is rule j.
  lemma FavouredEnds(q: Query, z: Schedule, j: nat, now: Moment, passed: nat, d: Decision)
    requires j <= |q.rules| && Winner(q, true, j) && Favours(q, z, j) && now.step <= |q.rules| + 1
    requires passed <= j + 1 && Ends(q, z, now, passed, d)
    ensures d == DecisionAt(q, j)
  {
    var e: nat :| EndsAt(q, z, now, passed, e, d);
    assert e < j ==> !(Bound(q, e) <= MustAnswer(q, true, j));
    assert !Races(q, j) ==> Holds(q, j);
    assert !Races(q, e) ==> Holds(q, e);
    if Races(q, e) && Races(q, j) {
      FavouredRaceIsEarly(q, z, j, now, e);
    }
  }

  // ----- schedules that let a chosen race rule win in the middle of a sweep

  /** The step of the first sweep after rule g - 1 if exactly the early exchanges have
      answered: that of a race rule with its answers in, or the one after the walk has
      come to a halt. */
  function SweepStep(q: Query, early: set<nat>, g: nat): (step: nat)
    requires g <= |q.rules|
    ensures g < step <= |q.rules| + 1
    decreases |q.rules| - g
  {
    if g == |q.rules| then g + 1
    else if Races(q, g) then
      if Bound(q, g) <= early then g + 1 else SweepStep(q, early, g + 1)
    else
      if Holds(q, g) || !(Bound(q, g) <= early) then g + 2 else SweepStep(q, early, g + 1)
  }

  lemma {:induction false} SweepStepStops(q: Query, early: set<nat>, g: nat, e: nat)
    requires g <= e && Races(q, e) && Bound(q, e) <= early
    ensures SweepStep(q, early, g) <= e + 1
    decreases e - g
  {
    if g < e && Races(q, g) && !(Bound(q, g) <= early) {
      SweepStepStops(q, early, g + 1, e);
    } else if g < e && !Races(q, g) && !Holds(q, g) && Bound(q, g) <= early {
      SweepStepStops(q, early, g + 1, e);
    } else if g < e && !Races(q, g) {
      assert SweepStep(q, early, g) == g + 2;
    }
  }

  // When a schedule that catches the sweep for rule j answers what rule j still waits for.
  function CatchAt(q: Query, j: nat): Moment
    requires j < |q.rules|
  {
    Moment(SweepStep(q, MustAnswer(q, false, j), j + 1), j + 1)
  }

  // The first sweep after rule j is also the first one after rule g - 1.
  predicate HaltsFrom(q: Query, j: nat, g: nat)
    requires j < g <= |q.rules|
  {
    var halts := CatchAt(q, j).step == SweepStep(q, MustAnswer(q, false, j), g);
    halts
  }

  lemma CatchIsAhead(q: Query, j: nat, g: nat)
    requires j < |q.rules| && g <= |q.rules| && (j < g ==> HaltsFrom(q, j, g))
    ensures g < CatchAt(q, j).step <= |q.rules| + 1
  {
  }

  /** What must have been answered before rule j is, is; what rule j still needs is answered
      in its first sweep, just before the sweep looks at it; everything else is late. */
  ghost predicate Catches(q: Query, z: Schedule, j: nat)
    requires j < |q.rules|
  {
    && (forall site {:trigger CatchDone(q, j, site)} :: z.done(site) == CatchDone(q, j, site))
    && forall step :: !z.fickle(step)
  }

  function CatchDone(q: Query, j: nat, site: nat): Moment
    requires j < |q.rules|
  {
    if site in MustAnswer(q, false, j) then Moment(0, 0) else if site in Bound(q, j) then CatchAt(q, j) else Moment(|q.rules| + 2, 0)
  }

  lemma CatchingSchedule(q: Query, j: nat) returns (z: Schedule)
    requires j < |q.rules|
    ensures Causal(z) && Catches(q, z, j)
  {
    var early, bound, at, late := MustAnswer(q, false, j), Bound(q, j), CatchAt(q, j), |q.rules| + 2;
    z := Schedule(
      site => if site in early then Moment(0, 0) else if site in bound then at else Moment(late, 0),
      site => late, step => false);
  }

  lemma CaughtMeansEarly(q: Query, z: Schedule, j: nat, now: Moment, site: nat)
    requires j < |q.rules| && Catches(q, z, j) && !By(CatchAt(q, j), now) && now.step <= |q.rules| + 1
    ensures Answered(z, now, site) <==> site in MustAnswer(q, false, j)
  {
    assert z.done(site) == CatchDone(q, j, site);
  }

  lemma CaughtFires(q: Query, z: Schedule, j: nat)
    requires j < |q.rules| && Catches(q, z, j) && Commits(q, j)
    ensures Fires(q, z, CatchAt(q, j).step, j)
  {
    forall x | x in Bound(q, j)
      ensures Answered(z, CatchAt(q, j), x)
    {
      assert z.done(x) == CatchDone(q, j, x);
    }
  }

  lemma CaughtStaysUnready(q: Query, z: Schedule, j: nat, now: Moment, w: Walk)
    requires j < |q.rules| && Catches(q, z, j) && now.step < CatchAt(q, j).step
    ensures NoneReady(z, Begin(now), w, |w.armed|) ==> NoneReady(z, Moment(now.step + 1, 0), w, |w.armed|)
  {
    var next := Moment(now.step + 1, 0);
    forall k | 0 <= k < |w.armed|
      ensures Ready(z, next, w.futures, w.armed[k]) ==> Ready(z, Begin(now), w.futures, w.armed[k])
    {
      forall site
        ensures Answered(z, Begin(now), site) <==> Answered(z, next, site)
      {
        assert z.done(site) == CatchDone(q, j, site);
      }
    }
  }

  lemma CaughtDrainsNothing(q: Query, z: Schedule, j: nat, now: Moment, w: Walk)
    requires w.index < j < |q.rules| && Catches(q, z, j) && now.step < CatchAt(q, j).step
    requires Standing(q, z, now, w) && NoneReady(z, Begin(now), w, |w.armed|) && Holds(q, w.index)
    ensures w.armed == []
  {
    forall k, p | 0 <= k < |w.armed| && 0 <= p < |w.armed[k].pending|
      ensures w.armed[k].pending[p] < |w.futures| && Answered(z, Begin(now), w.futures[w.armed[k].pending[p]].launch.site)
    {
      var a := w.armed[k];
      assert ArmedWell(q, z, now, w, a);
      assert DecidedBefore(q, a.index, j);
      CaughtMeansEarly(q, z, j, Begin(now), w.futures[a.pending[p]].launch.site);
    }
    NoneOfAll(z, Begin(now), w);
  }

  // What is not answered is awaited only where the walk is to halt.
  lemma CaughtAwaits(q: Query, z: Schedule, j: nat, now: Moment, i: nat, site: nat)
    requires j < |q.rules| && Winner(q, false, j) && Catches(q, z, j) && i < |q.rules| && !Races(q, i) && Races(q, j)
    requires now.step == i + 1 && i < CatchAt(q, j).step && !Answered(z, now, site)
    requires site in if Commits(q, i) then Consulted(q, i) else Bound(q, i)
    requires j < i ==> HaltsFrom(q, j, i)
    ensures j < i && CatchAt(q, j).step == now.step + 1
  {
    assert z.done(site) == CatchDone(q, j, site);
    if i < j {
      assert DecidedBefore(q, i, j);
      CaughtMeansEarly(q, z, j, now, site);
    }
  }

  // No race rule ahead of j fires as long as only the early exchanges have answered, and none after j before j does.
  lemma CaughtRace(q: Query, z: Schedule, j: nat, now: Moment, passed: nat, e: nat)
    requires j < |q.rules| && Winner(q, false, j) && Catches(q, z, j)
    requires now.step <= CatchAt(q, j).step && (now.step < CatchAt(q, j).step ==> passed <= now.step)
    requires e < passed <= |q.rules| && Races(q, e) && FirstToFire(q, z, now, e)
    ensures e == j
  {
    var early := MustAnswer(q, false, j);
    if e < j || now.step < CatchAt(q, j).step {
      forall x | x in Bound(q, e)
        ensures x in early
      {
        CaughtMeansEarly(q, z, j, now, x);
      }
      if e > j {
        SweepStepStops(q, early, j + 1, e);
      }
    }
    if e > j && now.step == CatchAt(q, j).step {
      CaughtFires(q, z, j);
    }
  }

  lemma CaughtPastRace(q: Query, z: Schedule, j: nat, now: Moment, g: nat)
    requires j < g && Races(q, g) && Catches(q, z, j) && Commits(q, j) && now.step == g + 1
    requires HaltsFrom(q, j, g)
    requires AllAnswered(q, z, Begin(now), g) ==> NoneFires(q, z, now.step, g + 1)
    ensures HaltsFrom(q, j, g + 1)
  {
    CaughtFires(q, z, j);
    forall x | x in Bound(q, g) && x in MustAnswer(q, false, j)
      ensures Answered(z, Begin(now), x)
    {
      assert z.done(x) == CatchDone(q, j, x);
    }
  }

  lemma CaughtPastOrdinary(q: Query, z: Schedule, j: nat, now: Moment, w: Walk)
    requires j + 1 < w.index <= |q.rules| && !Races(q, w.index - 1) && Catches(q, z, j) && Commits(q, j)
    requires Standing(q, z, now, w) && now.step == w.index
    requires HaltsFrom(q, j, w.index - 1)
    ensures HaltsFrom(q, j, w.index)
  {
    var g := w.index - 1;
    var k := ArmedAt(q, z, now, w, j);
    assert !Holds(q, g);
    PassedOrdinary(q, z, now, w, g);
    if !(Bound(q, g) <= MustAnswer(q, false, j)) {
      assert CatchAt(q, j).step == g + 2;
      forall x | x in Bound(q, g)
        ensures x in MustAnswer(q, false, j)
      {
        CaughtMeansEarly(q, z, j, now, x);
      }
    }
  }

  lemma PassedOrdinary(q: Query, z: Schedule, now: Moment, w: Walk, g: nat)
    requires w.index <= |q.rules| && Standing(q, z, now, w) && g < w.index && !Races(q, g)
    ensures AllAnswered(q, z, now, g)
  {
    forall k | 0 <= k < |w.armed|
      ensures w.armed[k].index != g
    {
      assert ArmedWell(q, z, now, w, w.armed[k]);
    }
  }

  // A rule after j that is passed is not where the walk sweeps or halts.
  lemma CaughtPast(q: Query, z: Schedule, j: nat, now: Moment, w: Walk)
    requires j + 1 < w.index <= |q.rules| && Catches(q, z, j) && Commits(q, j)
    requires Standing(q, z, now, w) && now.step == w.index
    requires HaltsFrom(q, j, w.index - 1)
    requires Races(q, w.index - 1) && AllAnswered(q, z, Begin(now), w.index - 1) ==> NoneFires(q, z, now.step, w.index)
    ensures HaltsFrom(q, j, w.index)
  {
    if Races(q, w.index - 1) {
      CaughtPastRace(q, z, j, now, w.index - 1);
    } else {
      CaughtPastOrdinary(q, z, j, now, w);
    }
  }

  // Whoever ends such a walk is rule j.
  lemma CaughtEnds(q: Query, z: Schedule, j: nat, now: Moment, passed: nat, d: Decision)
    requires Races(q, j) && Winner(q, false, j) && Catches(q, z, j) && passed <= |q.rules|
    requires now.step <= CatchAt(q, j).step && (now.step < CatchAt(q, j).step ==> passed <= now.step)
    requires Ends(q, z, now, passed, d)
    ensures d == DecisionAt(q, j)
  {
    var e: nat :| EndsAt(q, z, now, passed, e, d);
    if Races(q, e) {
      CaughtRace(q, z, j, now, passed, e);
    } else {
      assert Holds(q, e);
      assert j < e ==> DecidedBefore(q, j, e);
    }
  }

  // The schedule catches a sweep for rule j, which can win no sooner.
  ghost predicate Caught(q: Query, z: Schedule, j: nat) {
    var caught := Races(q, j) && Winner(q, false, j) && Catches(q, z, j);
    caught
  }

  // The walk has not come to that sweep.
  ghost predicate OnWay(q: Query, z: Schedule, j: nat, now: Moment, w: Walk)
    requires j < |q.rules|
  {
    var onWay :=
      && w.index <= |q.rules|
      && now.step == w.index
      && NoneReady(z, Begin(now), w, |w.armed|)
      && (j < w.index ==> HaltsFrom(q, j, w.index));
    onWay
  }

  // The walk has halted, and the next step is that sweep.
  predicate IsDue(q: Query, j: nat, now: Moment, index: nat)
    requires j < |q.rules|
  {
    var due := j < index && now.step + 1 == CatchAt(q, j).step;
    due
  }

  lemma CaughtLook(q: Query, z: Schedule, j: nat, now: Moment, w: Walk)
    requires Caught(q, z, j) && OnWay(q, z, j, now, w)
    ensures NoneReady(z, Moment(now.step + 1, 0), w, |w.armed|)
  {
    CatchIsAhead(q, j, w.index);
    CaughtStaysUnready(q, z, j, now, w);
  }

  // A walk on its way that has passed a rule is still on its way.
  lemma CaughtOn(q: Query, z: Schedule, j: nat, before: Moment, w: Walk, now: Moment, w': Walk)
    requires Caught(q, z, j) && OnWay(q, z, j, before, w)
    requires w'.index == w.index + 1 <= |q.rules| && now.step == before.step + 1 && Standing(q, z, now, w')
    requires NoneReady(z, Begin(now), w', |w'.armed|)
    requires Races(q, w.index) && AllAnswered(q, z, Begin(now), w.index) ==> NoneFires(q, z, now.step, w'.index)
    ensures OnWay(q, z, j, now, w')
  {
    if j < w.index {
      CaughtPast(q, z, j, now, w');
    }
  }

  lemma CaughtHalts(q: Query, z: Schedule, j: nat, now: Moment, w: Walk)
    requires Caught(q, z, j) && w.index <= |q.rules| && (j < w.index ==> HaltsFrom(q, j, w.index))
    requires w.armed != [] && Standing(q, z, now, w) && NoneReady(z, Begin(now), w, |w.armed|) && Holds(q, w.index)
    requires now.step == if w.index < |q.rules| then w.index + 1 else w.index
    ensures IsDue(q, j, now, w.index)
  {
    CatchIsAhead(q, j, w.index);
    if w.index < j {
      CaughtDrainsNothing(q, z, j, now, w);
    }
  }

  // A rule that is due is what the next sweep comes to.
  lemma CaughtDue(q: Query, z: Schedule, j: nat, before: Moment, passed: nat, d: Option<Decision>)
    requires Caught(q, z, j) && passed <= |q.rules| && IsDue(q, j, before, passed) && SweptTo(q, z, before.step + 1, passed, d)
    ensures d == Some(DecisionAt(q, j))
  {
    CaughtFires(q, z, j);
    if d.Some? {
      var e: nat :| Races(q, e) && EndsAt(q, z, Moment(before.step + 1, e + 1), passed, e, d.value);
      CaughtRace(q, z, j, Moment(before.step + 1, e + 1), passed, e);
    }
  }

  // The schedule brings rule j about: it favours it, or catches a sweep for it.
  ghost predicate Brings(q: Query, z: Schedule, j: nat) {
    || (j <= |q.rules| && Winner(q, true, j) && Favours(q, z, j))
    || Caught(q, z, j)
  }

  /** Every winner is brought about by some schedule, and every winner among steady
      schedules by a steady one. */
  lemma BringingSchedule(q: Query, steady: bool, j: nat) returns (z: Schedule)
    requires j <= |q.rules| && Winner(q, steady, j)
    ensures Causal(z) && Brings(q, z, j) && (steady ==> Steady(z))
  {
    if Races(q, j) && !steady {
      z := CatchingSchedule(q, j);
    } else {
      OrdinaryWinsSteadily(q, j);
      z := FavouringSchedule(q, j);
    }
  }

  // Nothing commits ahead of an ordinary winner.
  lemma OrdinaryWinsSteadily(q: Query, j: nat)
    requires j <= |q.rules| && Winner(q, false, j)
    ensures !Races(q, j) ==> Winner(q, true, j)
  {
    if !Races(q, j) {
      assert Holds(q, j);
      assert forall k | 0 <= k < j && Commits(q, k) :: DecidedBefore(q, k, j);
    }
  }

  lemma TickKeeps(q: Query, z: Schedule, now: Moment, w: Walk)
    ensures Books(q, z, now, w) ==> Books(q, z, Moment(now.step + 1, 0), w)
    ensures Sound(q, z, now, w) ==> Sound(q, z, Moment(now.step + 1, 0), w)
    ensures Unsent(w.futures, z, now.step + 1) <= Unsent(w.futures, z, now.step)
    ensures (exists i | 0 <= i < |w.futures| :: z.sent(w.futures[i].launch.site) == now.step + 1) ==>
              Unsent(w.futures, z, now.step + 1) < Unsent(w.futures, z, now.step)
  {
    UnsentDrops(w.futures, z, now.step);
    LaterKeeps(q, z, now, Moment(now.step + 1, 0), w);
  }

  /** A walk in progress. `state` is the record every step updates, `wake` is None
      until the first exchange and then tells whether the channel holds its token. */
  class Walker {
    const q: Query
    const z: Schedule
    var state: Walk
    var wake: Option<bool>
    var now: Moment

    constructor (q: Query, z: Schedule)
      requires WellFormed(q.rules) && Causal(z)
      ensures this.q == q && this.z == z && Valid() && Untouched()
    {
      this.q, this.z := q, z;
      state := Walk(0, q.options, None, map[], map[], map[], [], [], None);
      wake, now := None, Moment(0, 0);
    }

    // The books balance, even when a race rule has just been committed.
    ghost predicate Kept()
      reads this
    {
      var kept :=
        && WellFormed(q.rules)
        && Causal(z)
        && Books(q, z, now, state)
        && (state.futures != [] ==> wake.Some?);
      kept
    }

    ghost predicate Valid()
      reads this
    {
      var valid := Kept() && Sound(q, z, now, state);
      valid
    }

    ghost predicate Untouched()
      reads this
    {
      state.index == 0 && state.futures == [] && state.armed == [] && now == Moment(0, 0) && state.terminal.None?
    }

    // A blocked walk will be woken: the token is there, or some exchange has yet to post it.
    ghost predicate Hopeful()
      reads this
    {
      wake.Some? && (wake.value || exists i | 0 <= i < |state.futures| :: z.sent(state.futures[i].launch.site) > now.step)
    }

    ghost function Owed(): nat
      reads this
    {
      Unsent(state.futures, z, now.step) + if wake.Some? && wake.value then 1 else 0
    }

    predicate Resolved(f: nat)
      requires f < |state.futures|
      reads this
    {
      Answered(z, now, state.futures[f].launch.site)
    }

    function Response(f: nat): Option<Message>
      requires f < |state.futures|
      reads this
    {
      if Resolved(f) && !state.futures[f].cancelled then Seen(q, state.futures[f].launch) else None
    }

    function AnonymousResponse(): Option<Message>
      requires state.anonymous.Some? ==> state.anonymous.value < |state.futures|
      reads this
    {
      if state.anonymous.Some? then Response(state.anonymous.value) else None
    }

    // The next step begins: whoever posts a token by then posts one that the channel keeps.
    method Tick()
      requires Kept()
      modifies this`now, this`wake
      ensures Kept() && now == Moment(old(now).step + 1, 0)
      ensures old(Valid()) ==> Valid()
      ensures forall i | 0 <= i < |state.futures| && z.sent(state.futures[i].launch.site) > old(now).step ::
                z.sent(state.futures[i].launch.site) > now.step || wake == Some(true)
      ensures old(wake) == Some(true) ==> wake == Some(true)
      ensures wake.Some? == old(wake.Some?)
      ensures Owed() <= old(Owed())
    {
      TickKeeps(q, z, now, state);
      now := Moment(now.step + 1, 0);
      assert Books(q, z, now, state);
      if wake.Some? && exists i | 0 <= i < |state.futures| :: z.sent(state.futures[i].launch.site) == now.step {
        wake := Some(true);
      }
    }

    // Time passes until the token is there; the exchange `sender` will post it at the latest.
    method AwaitToken(ghost sender: nat)
      requires Valid() && wake.Some?
      requires wake.value || (sender < |state.futures| && z.sent(state.futures[sender].launch.site) > now.step)
      modifies this`now, this`wake
      ensures Valid() && wake == Some(true) && By(old(now), now) && Owed() <= old(Owed())
    {
      while wake != Some(true)
        invariant Valid() && wake.Some? && By(old(now), now) && Owed() <= old(Owed())
        invariant wake != Some(true) ==> sender < |state.futures| && z.sent(state.futures[sender].launch.site) > now.step
        decreases if wake != Some(true) then z.sent(state.futures[sender].launch.site) - now.step else 0
      {
        Tick();
      }
    }

    // Block on the wake channel. There is no way to block for ever.
    method AwaitWake()
      requires Valid() && Hopeful()
      modifies this`now, this`wake
      ensures Valid() && By(old(now), now)
      ensures Owed() < old(Owed())
    {
      ghost var sender: nat :=
        if wake == Some(true) then 0
        else var i :| 0 <= i < |state.futures| && z.sent(state.futures[i].launch.site) > now.step; i;
      AwaitToken(sender);
      TakeToken();
    }

    method TakeToken()
      requires Valid() && wake == Some(true)
      modifies this`wake
      ensures Valid() && Owed() < old(Owed())
    {
      wake := Some(false);
    }

    // Record a sent exchange; a callback that runs at once posts its token at once.
    method Launch(launch: Launch, tag: string, terminal: bool) returns (f: nat)
      modifies this`state, this`wake
      ensures f == |old(state).futures|
      ensures state == old(state).(futures := old(state).futures + [Sent(launch, tag, terminal)])
      ensures wake.Some?
    {
      f := |state.futures|;
      state := state.(futures := state.futures + [Sent(launch, tag, terminal)]);
      if wake.None? {
        wake := Some(false);
      }
      if z.sent(launch.site) <= now.step {
        wake := Some(true);
      }
    }

    // Deliver the response of one future, if it has answered.
    method SettleAt(f: nat, ghost before: Walk)
      requires f < |state.futures| && Causal(z) && Books(q, z, now, state)
      requires DeliveredFrom(before, state) && SettledSoFar(z, now, state, f)
      modifies this`state
      ensures |state.futures| == |old(state).futures| && Books(q, z, now, state)
      ensures DeliveredFrom(before, state) && SettledSoFar(z, now, state, f + 1)
    {
      var future := state.futures[f];
      if future.settled || !Resolved(f) {
        return;
      }
      SettleKeepsBooks(q, z, now, state, f);
      SettleProgress(q, z, now, before, state, f);
      ghost var after := SettleOne(q, state, f);
      var view := Response(f);
      state := state.(futures := state.futures[f := future.(settled := true)]);
      if future.tag != "" {
        state := state.(responses := state.responses[future.tag := view]);
        state := state.(transports := state.transports[future.tag := future.launch.transport]);
      }
      assert state == after;
    }

    // Deliver the responses of all futures that have answered.
    method Settle()
      requires Kept()
      modifies this`state
      ensures Kept() && Current(z, now, state) && DeliveredFrom(old(state), state)
      ensures old(Valid()) ==> Valid()
      ensures Owed() == old(Owed())
    {
      ghost var before := state;
      for f := 0 to |state.futures|
        invariant |state.futures| == |before.futures|
        invariant Books(q, z, now, state) && DeliveredFrom(before, state) && SettledSoFar(z, now, state, f)
      {
        SettleAt(f, before);
      }
      CountsIgnoreSettling(before.futures, state.futures, z, now);
      SettledKeepsSound(q, z, now, before, state);
    }

    // Match one ready armed rule and say what it commits to, under the options it was armed with.
    method JudgeArmed(a: Armed) returns (d: Option<Decision>)
      requires Kept() && Current(z, now, state)
      requires ArmedWell(q, z, now, state, a) && Ready(z, now, state.futures, a)
      requires a.pending == [] ==> a.index + 1 == state.index
      ensures d == Judge(q, a.index, Path(q, a.index))
    {
      var rule := q.rules[a.index];
      ghost var s := Path(q, a.index);
      ShowsArmed(q, z, now, state, a);
      assert a.anonymous.Some? ==> s.anonymous.value.site in Bound(q, a.index);
      var view := None;
      if a.bindsAnonymous {
        view := if a.anonymous.Some? then Response(a.anonymous.value) else None;
      } else {
        view := AnonymousResponse();
      }
      MatchAgrees(q, z, now, state, a.index, view);
      if !rule.Match(view, state.responses, q.late(a.index)) {
        return None;
      }
      match rule.action {
        case Respond =>
          var response, transport := None, None;
          if rule.respondTag != "" {
            assert rule.respondTag in rule.tags;
            TagView(q, z, now, state, a.index, rule.respondTag);
            if rule.respondTag in state.responses && rule.respondTag !in q.late(a.index) {
              response := state.responses[rule.respondTag];
              transport := Some(state.transports[rule.respondTag]);
            }
          } else {
            RespondBindsSource(q, a.index);
            if a.anonymous.Some? {
              response := Response(a.anonymous.value);
              transport := Some(state.futures[a.anonymous.value].launch.transport);
            } else {
              // The walk's own anonymous response would be used here, and there is none yet.
              ArmedWithoutAnonymous(q, z, now, state, a);
              assert state.anonymous.None?;
            }
          }
          return Some(Final(RespondWith(response, transport)));
        case Route(server, _, route) =>
          var resolved := q.ResolveRoute(server, route, a.options);
          if resolved.None? {
            return None;
          }
          return Some(Exchange(DnsRules.Launch.Launch(a.index, resolved.value.0, resolved.value.1)));
        case Reject(how) =>
          match how {
            case RejectDefault => return Some(Final(Reply(Some(q.refused), None, Some(RejectDefault), None)));
            case RejectDrop => return Some(Final(Reply(None, None, Some(RejectDrop), Some(Dropped))));
          }
        case Predefined(m) =>
          return Some(Final(Reply(Some(m), None, None, None)));
        case SetOptions(_) =>
          return None;
        case Evaluate(_, _, _, _) =>
          return None;
      }
    }

    // Time passes within a step.
    method Linger(sub: nat)
      requires Kept()
      modifies this`now
      ensures Kept() && now.step == old(now).step && now.sub == (if sub < old(now).sub then old(now).sub else sub)
      ensures old(Standing(q, z, now, state)) ==> Standing(q, z, now, state)
    {
      ghost var before := now;
      now := Moment(now.step, if sub < now.sub then now.sub else sub);
      LaterKeepsBooks(q, z, before, now, state);
      if Standing(q, z, before, state) {
        LaterKeepsStanding(q, z, before, now, state);
      }
    }

    // Judge a ready armed rule on what has been delivered, and disarm it.
    method JudgeAndDisarm(index: nat) returns (d: Option<Decision>)
      requires Kept() && Standing(q, z, now, state) && IdleOnlyWhenNew(state)
      requires index < |state.armed| && Ready(z, now, state.futures, state.armed[index])
      modifies this`state
      ensures Kept() && Disarmed(old(state), state, index)
      ensures d == Judge(q, old(state).armed[index].index, Path(q, old(state).armed[index].index))
      ensures d.None? ==> Standing(q, z, now, state) && IdleOnlyWhenNew(state)
    {
      ghost var before := state;
      Settle();
      SettledKeepsStanding(q, z, now, before, state);
      SettledKeepsReady(z, now, before, state, index);
      assert ArmedWell(q, z, now, state, state.armed[index]);
      d := JudgeArmed(state.armed[index]);
      DisarmAt(index);
    }

    method DisarmAt(index: nat)
      requires Kept() && Standing(q, z, now, state) && IdleOnlyWhenNew(state) && index < |state.armed|
      requires Ready(z, now, state.futures, state.armed[index])
      modifies this`state
      ensures Kept() && state == Disarm(old(state), index)
      ensures old(state).armed[index].index < |q.rules| && !Commits(q, old(state).armed[index].index) ==>
                Standing(q, z, now, state) && IdleOnlyWhenNew(state)
    {
      if state.armed[index].index < |q.rules| && !Commits(q, state.armed[index].index) {
        DisarmKeepsStanding(q, z, now, state, index);
      }
      DisarmKeepsOrder(state, index);
      BooksIgnoreArmed(q, z, now, state, state.armed[..index] + state.armed[index + 1..]);
      state := state.(armed := state.armed[..index] + state.armed[index + 1..]);
    }

    /** Judge the armed rule at `index` if all it waits for has been answered by the time
        it is looked at, and disarm it then. */
    method SweepAt(index: nat) returns (ready: bool, d: Option<Decision>)
      requires Kept() && Standing(q, z, now, state) && IdleOnlyWhenNew(state) && index < |state.armed|
      modifies this`state, this`now
      ensures Kept() && now.step == old(now).step
      ensures now.sub == if old(now).sub <= old(state).armed[index].index then old(state).armed[index].index + 1 else old(now).sub
      ensures ready == Ready(z, now, old(state).futures, old(state).armed[index])
      ensures !ready ==> state == old(state) && d.None?
      ensures ready ==> Disarmed(old(state), state, index)
      ensures ready ==> d == Judge(q, old(state).armed[index].index, Path(q, old(state).armed[index].index))
      ensures d.None? ==> Standing(q, z, now, state) && IdleOnlyWhenNew(state)
    {
      var armed := state.armed[index];
      Linger(armed.index + 1);
      assert ArmedWell(q, z, now, state, armed);
      ready := IsReady(armed);
      d := None;
      if ready {
        d := JudgeAndDisarm(index);
      }
    }

    // The same in the course of a sweep.
    method SweepNext(index: nat, ghost before: Walk) returns (ready: bool, d: Option<Decision>)
      requires Kept() && SweptSoFar(q, z, now, before, state, index) && index < |state.armed|
      modifies this`state, this`now
      ensures Kept() && now.step == old(now).step && By(old(now), now) && Polled(before, state)
      ensures d.None? ==> SweptSoFar(q, z, now, before, state, if ready then index else index + 1)
      ensures |state.armed| == if ready then |old(state).armed| - 1 else |old(state).armed|
      ensures d.Some? ==> Ends(q, z, now, state.index, d.value) && SweptTo(q, z, now.step, state.index, d)
      ensures d.Some? && d.value.Exchange? ==> NotYetSent(state.futures, d.value.launch.site)
    {
      ghost var w, began := state, now;
      ready, d := SweepAt(index);
      SweptLater(q, z, began, now, before, w, index);
      assert ArmedWell(q, z, now, w, w.armed[index]);
      if !ready {
        SweptPast(q, z, began, now, before, w, index);
      } else if d.None? {
        SweptDisarmed(q, z, began, now, before, w, state, index);
      } else {
        DisarmedIsPolled(before, w, state, index);
        FoundFirst(q, z, began, now, before, w, index, d.value);
        assert Races(q, w.armed[index].index) && now == Moment(now.step, w.armed[index].index + 1);
        SweptIsUnsent(q, z, now, state, w.armed[index].index);
      }
    }

    /** Judge every armed rule whose exchanges have all been answered when it is looked at,
        in rule order. The first one that commits ends the walk; those that do not are
        disarmed. None of those left was ready when the sweep began. */
    method Sweep() returns (committed: Option<Decision>)
      requires Kept() && now.sub == 0
      requires state.armed != [] ==> Standing(q, z, now, state) && IdleOnlyWhenNew(state)
      modifies this`state, this`now
      ensures Kept() && now.step == old(now).step && By(old(now), now) && Polled(old(state), state)
      ensures old(TerminalWell(q, state)) ==> TerminalWell(q, state)
      ensures Owed() == old(Owed())
      ensures committed.None? ==>
                && NoneReady(z, old(now), state, |state.armed|)
                && (old(Standing(q, z, now, state)) ==>
                      Standing(q, z, now, state) && NoneFires(q, z, now.step, state.index) && NoneIdle(state))
      ensures committed.Some? ==> old(state).armed != [] && Ends(q, z, now, state.index, committed.value)
      ensures committed.Some? ==> SweptTo(q, z, now.step, state.index, committed)
      ensures committed.Some? && committed.value.Exchange? ==> NotYetSent(state.futures, committed.value.launch.site)
    {
      ghost var before := state;
      SweptStart(q, z, now, state);
      committed := SweepAll();
      SweptDone(q, z, now, before, state);
      CountsIgnoreSettling(before.futures, state.futures, z, now);
      assert Unsent(state.futures, z, now.step) == Unsent(before.futures, z, now.step);
    }

    method SweepAll() returns (committed: Option<Decision>)
      requires Kept() && SweptSoFar(q, z, now, state, state, 0)
      modifies this`state, this`now
      ensures Kept() && now.step == old(now).step && By(old(now), now) && Polled(old(state), state)
      ensures committed.None? ==> SweptSoFar(q, z, now, old(state), state, |state.armed|)
      ensures committed.Some? ==> old(state).armed != [] && Ends(q, z, now, state.index, committed.value)
      ensures committed.Some? ==> SweptTo(q, z, now.step, state.index, committed)
      ensures committed.Some? && committed.value.Exchange? ==> NotYetSent(state.futures, committed.value.launch.site)
    {
      ghost var before := state;
      var index := 0;
      committed := None;
      while index < |state.armed| && committed.None?
        invariant Kept() && now.step == old(now).step && By(old(now), now) && Polled(before, state)
        invariant committed.None? ==> SweptSoFar(q, z, now, before, state, index)
        invariant committed.Some? ==> before.armed != [] && Ends(q, z, now, state.index, committed.value)
        invariant committed.Some? ==> SweptTo(q, z, now.step, state.index, committed)
        invariant committed.Some? && committed.value.Exchange? ==> NotYetSent(state.futures, committed.value.launch.site)
        decreases committed.None?, |state.armed| - index
      {
        var ready;
        ready, committed := SweepNext(index, before);
        if !ready {
          index := index + 1;
        }
      }
    }

    method IsReady(a: Armed) returns (ready: bool)
      requires forall p | 0 <= p < |a.pending| :: a.pending[p] < |state.futures|
      ensures ready == Ready(z, now, state.futures, a)
    {
      for p := 0 to |a.pending|
        invariant forall i | 0 <= i < p :: Answered(z, now, state.futures[a.pending[i]].launch.site)
      {
        if !Resolved(a.pending[p]) {
          return false;
        }
      }
      return true;
    }

    // What a suspended walk tells its driver.
    ghost predicate Suspends(s: Suspension)
      reads this
    {
      match s
      case Await(f) =>
        && Valid()
        && f < |state.futures|
        && !Resolved(f)
        && !Races(q, state.index)
        && state.futures[f].launch.site in if Commits(q, state.index) then Consulted(q, state.index) else Bound(q, state.index)
      case Drain => Valid() && state.armed != [] && (Holds(q, state.index) || z.fickle(now.step))
      case Commit(pending) => Kept() && state.armed == [] && Committed(pending)
    }

    ghost predicate Committed(pending: PendingExchange)
      reads this
    {
      && Sendable(pending, state.futures)
      && Ends(q, z, now, state.index, PendingDecision(pending, state.futures))
    }

    ghost predicate Yields(step: Step)
      reads this
    {
      match step
      case Finished(reply) => Kept() && Ends(q, z, now, state.index, Final(reply))
      case Suspended(s) => Suspends(s)
    }

    // The first bound future that is not answered yet.
    method FirstUnresolved() returns (f: Option<nat>)
      requires Mirrors(q, state) && state.index < |q.rules|
      ensures f.None? ==> AllAnswered(q, z, now, state.index)
      ensures f.Some? ==>
                && f.value < |state.futures|
                && !Resolved(f.value)
                && state.futures[f.value].launch.site in Bound(q, state.index)
    {
      var rule := q.rules[state.index];
      ghost var s := Path(q, state.index);
      for n := 0 to |rule.tags|
        invariant forall i | 0 <= i < n && rule.tags[i] in s.named :: Answered(z, now, s.named[rule.tags[i]].site)
      {
        var tag := rule.tags[n];
        if tag in state.named && !Resolved(state.named[tag]) {
          assert tag in rule.tags && s.named[tag].site in Bound(q, state.index);
          return Some(state.named[tag]);
        }
      }
      if rule.anonymous && state.anonymous.Some? && !Resolved(state.anonymous.value) {
        return state.anonymous;
      }
      return None;
    }

    // The future of a rule's nth tag, if the rule has to wait for it.
    method AddPending(n: nat, pending: seq<nat>) returns (pending': seq<nat>)
      requires Mirrors(q, state) && state.index < |q.rules| && n < |q.rules[state.index].tags|
      requires ListedWell(q, z, now, state.index, pending, state.futures)
      requires TagsCovered(q, z, now, state.index, n, pending, state.futures)
      ensures ListedWell(q, z, now, state.index, pending', state.futures)
      ensures TagsCovered(q, z, now, state.index, n + 1, pending', state.futures)
    {
      pending' := pending;
      var tag := q.rules[state.index].tags[n];
      if tag in state.named && !Resolved(state.named[tag]) {
        assert tag in q.rules[state.index].tags && Path(q, state.index).named[tag].site in Bound(q, state.index);
        ListedGrows(pending, state.futures, state.named[tag]);
        pending' := pending + [state.named[tag]];
      }
    }

    // The bound futures a race rule has to wait for.
    method PendingFutures() returns (pending: seq<nat>)
      requires Mirrors(q, state) && state.index < |q.rules|
      ensures ListedWell(q, z, now, state.index, pending, state.futures)
      ensures forall x | x in Bound(q, state.index) :: Answered(z, now, x) || Listed(pending, state.futures, x)
    {
      var rule := q.rules[state.index];
      pending := [];
      for n := 0 to |rule.tags|
        invariant ListedWell(q, z, now, state.index, pending, state.futures)
        invariant TagsCovered(q, z, now, state.index, n, pending, state.futures)
      {
        pending := AddPending(n, pending);
      }
      if rule.anonymous && state.anonymous.Some? && !Resolved(state.anonymous.value) {
        ListedGrows(pending, state.futures, state.anonymous.value);
        pending := pending + [state.anonymous.value];
      }
      TagsCoverBound(q, z, now, state.index, pending, state.futures);
    }

    // Arm the race rule the walk stands at, on the futures it still has to wait for.
    method ArmRule() returns (ghost pending: seq<nat>, idle: bool)
      requires Mirrors(q, state) && Races(q, state.index)
      modifies this`state
      ensures ListedWell(q, z, now, old(state).index, pending, state.futures)
      ensures forall x | x in Bound(q, old(state).index) :: Answered(z, now, x) || Listed(pending, state.futures, x)
      ensures state == Arm(old(state), ArmedHere(q, old(state), pending))
      ensures idle == (pending == [])
    {
      var waitFor := PendingFutures();
      state := state.(index := state.index + 1, armed := state.armed + [ArmedHere(q, state, waitFor)]);
      pending, idle := waitFor, waitFor == [];
    }

    // Sweep after arming a rule with nothing to wait for.
    method SweepIdle() returns (step: Option<Step>)
      requires Kept() && now.sub == 0 && TerminalWell(q, state) && Standing(q, z, now, state) && IdleOnlyWhenNew(state)
      modifies this`state, this`now
      ensures now.step == old(now).step && By(old(now), now) && state.index == old(state).index
      ensures step.Some? ==> Yields(step.value) && (step.value.Suspended? ==> step.value.suspension.Commit?)
      ensures step.None? ==> Valid() && NoneReady(z, old(now), state, |state.armed|) && NoneFires(q, z, now.step, state.index)
    {
      var d := Sweep();
      if d.None? {
        return None;
      }
      var s := EndRace(d.value);
      return Some(s);
    }

    // A race rule is armed; one with nothing to wait for is swept at once.
    method RaceRule() returns (step: Option<Step>)
      requires Valid() && now.sub == 0 && Races(q, state.index)
      modifies this`state, this`now
      ensures now.step == old(now).step && By(old(now), now) && state.index == old(state).index + 1
      ensures step.Some? ==> Yields(step.value) && (step.value.Suspended? ==> step.value.suspension.Commit?)
      ensures step.None? ==> Valid()
      ensures step.None? && AllAnswered(q, z, old(now), old(state).index) ==> Settles(old(state).index)
      ensures step.None? && old(NoneReady(z, now, state, |state.armed|)) ==> NoneReady(z, old(now), state, |state.armed|)
    {
      ghost var before := state;
      var idle := ArmSoundly();
      step := None;
      if idle {
        step := SweepIdle();
        if step.None? && AllAnswered(q, z, old(now), before.index) {
          QuietIsSettled(q, z, now.step, before.index);
        }
      }
    }

    method ArmSoundly() returns (idle: bool)
      requires Valid() && Races(q, state.index)
      modifies this`state
      ensures Kept() && state.index == old(state).index + 1
      ensures TerminalWell(q, state) && Standing(q, z, now, state) && IdleOnlyWhenNew(state)
      ensures !idle ==> Valid() && !AllAnswered(q, z, now, old(state).index)
      ensures !idle && old(NoneReady(z, now, state, |state.armed|)) ==> NoneReady(z, now, state, |state.armed|)
    {
      ghost var before := state;
      ghost var pending;
      pending, idle := ArmRule();
      ArmHereKeepsSound(q, z, now, before, pending);
      if !idle {
        ArmedUnready(q, z, now, before, pending);
      }
    }

    // The walk ends with what a swept rule decided.
    method EndRace(d: Decision) returns (step: Step)
      requires Kept() && Ends(q, z, now, state.index, d) && (d.Exchange? ==> NotYetSent(state.futures, d.launch.site))
      modifies this`state
      ensures Yields(step) && (step.Suspended? ==> step.suspension.Commit?)
      ensures state.index == old(state).index
    {
      match d {
        case Final(reply) =>
          return Finished(reply);
        case Exchange(launch) =>
          BooksIgnoreArmed(q, z, now, state, []);
          state := state.(armed := []);
          return Suspended(Commit(ToSend(launch)));
      }
    }

    // Send the query of the evaluate rule the walk stands at and bind its future.
    method SendEvaluate(launch: Launch, tag: string)
      modifies this`state, this`wake
      ensures state == Evaluated(old(state), launch, tag) && wake.Some?
    {
      var f := Launch(launch, tag, false);
      if tag == "" {
        state := state.(anonymous := Some(f));
      } else {
        state := state.(named := state.named[tag := f]);
      }
      state := state.(index := state.index + 1);
    }

    // An evaluate rule whose server is missing; an anonymous one still ends the previous binding.
    method MissServer(tag: string)
      modifies this`state
      ensures state == Missed(old(state), tag)
    {
      if tag == "" {
        state := state.(anonymous := None);
      }
      state := state.(index := state.index + 1);
    }

    method PassUnsent(tag: string)
      requires Valid() && state.index < |q.rules| && !Races(q, state.index) && AllAnswered(q, z, now, state.index)
      requires !Holds(q, state.index) && !Sends(q, state.index)
      requires var s := Path(q, state.index); Advance(q, state.index, s) == if tag == "" then s.(anonymous := None) else s
      modifies this`state
      ensures Valid() && state.index == old(state).index + 1
      ensures state.armed == old(state).armed && Extends(old(state).futures, state.futures)
    {
      MissKeepsSound(q, z, now, state, tag);
      MissServer(tag);
    }

    method PassSent(launch: Launch, tag: string)
      requires Valid() && state.index < |q.rules| && !Races(q, state.index)
      requires q.rules[state.index].action.Evaluate? && q.rules[state.index].action.tag == tag
      requires q.rules[state.index].action.server in q.servers
      requires launch == DnsRules.Launch.Launch(state.index, q.servers[q.rules[state.index].action.server],
                                                Apply(state.options, q.rules[state.index].action.route))
      requires state.armed != [] ==> q.rules[state.index].action.speculative
      requires Matches(q, state.index, Path(q, state.index)) && AllAnswered(q, z, now, state.index)
      modifies this`state, this`wake
      ensures Valid() && state.index == old(state).index + 1
      ensures state.armed == old(state).armed && Extends(old(state).futures, state.futures)
    {
      EvaluateKeepsSound(q, z, now, state, launch);
      SendEvaluate(launch, tag);
    }

    // A matching evaluate rule sends its query, unless race rules are pending and it is not speculative.
    method ActEvaluate() returns (drain: bool)
      requires Valid() && state.index < |q.rules| && !Races(q, state.index)
      requires q.rules[state.index].action.Evaluate? && Matches(q, state.index, Path(q, state.index))
      requires AllAnswered(q, z, now, state.index)
      modifies this`state, this`wake
      ensures Valid()
      ensures drain ==> state == old(state) && wake == old(wake) && state.armed != [] && Holds(q, state.index)
      ensures !drain ==> state.index == old(state).index + 1 && state.armed == old(state).armed
      ensures Extends(old(state).futures, state.futures)
    {
      var Evaluate(server, tag, speculative, route) := q.rules[state.index].action;
      if server !in q.servers {
        PassUnsent(tag);
        return false;
      }
      if !speculative && state.armed != [] {
        return true;
      }
      PassSent(DnsRules.Launch.Launch(state.index, q.servers[server], Apply(state.options, route)), tag);
      return false;
    }

    // The message and server a `respond` rule answers with, once its source has answered.
    method RespondReply() returns (reply: Reply)
      requires Kept() && state.index < |q.rules| && !Races(q, state.index)
      requires q.rules[state.index].respondTag != "" ==> Current(z, now, state)
      requires AllAnswered(q, z, now, state.index)
      requires q.rules[state.index].respondTag == "" && state.anonymous.Some? ==> Resolved(state.anonymous.value)
      ensures var source := RespondSource(q, state.index, Path(q, state.index));
              reply == if source.None? then RespondWith(None, None)
                       else RespondWith(Seen(q, source.value), Some(source.value.transport))
    {
      var rule := q.rules[state.index];
      if rule.respondTag != "" {
        assert rule.respondTag in rule.tags;
        ShowsHere(q, z, now, state);
        TagView(q, z, now, state, state.index, rule.respondTag);
        if rule.respondTag !in state.responses || rule.respondTag in q.late(state.index) {
          return RespondWith(None, None);
        }
        return RespondWith(state.responses[rule.respondTag], Some(state.transports[rule.respondTag]));
      }
      if state.anonymous.None? {
        return RespondWith(None, None);
      }
      return RespondWith(AnonymousResponse(), Some(state.futures[state.anonymous.value].launch.transport));
    }

    // A matching respond rule answers with its source, after the races and after the source.
    method ActRespond() returns (step: Step)
      requires Valid() && state.index < |q.rules| && !Races(q, state.index)
      requires q.rules[state.index].action.Respond? && Matches(q, state.index, Path(q, state.index))
      requires q.rules[state.index].HasBindings() ==> Current(z, now, state)
      requires AllAnswered(q, z, now, state.index)
      ensures Yields(step)
    {
      if state.armed != [] {
        return Suspended(Drain);
      }
      var rule := q.rules[state.index];
      if !rule.HasBindings() && state.anonymous.Some? && !Resolved(state.anonymous.value) {
        return Suspended(Await(state.anonymous.value));
      }
      assert rule.respondTag == "" && rule.HasBindings() && state.anonymous.Some? ==>
               Path(q, state.index).anonymous.value.site in Bound(q, state.index);
      var reply := RespondReply();
      HeldRuleEnds(q, z, now, state);
      return Finished(reply);
    }

    // Go on to the next rule; the current one has no effect.
    method PassBy()
      requires Valid() && Passable(q, z, now, state, state.options)
      modifies this`state
      ensures Valid() && state == old(state).(index := old(state).index + 1)
    {
      Pass(state.options);
    }

    // Go on to the next rule under the given options.
    method Pass(options: Options)
      requires Valid() && Passable(q, z, now, state, options)
      modifies this`state
      ensures Valid() && state == old(state).(index := old(state).index + 1, options := options)
    {
      PassKeepsSound(q, z, now, state, options);
      state := state.(index := state.index + 1, options := options);
    }

    // A route that has to wait for race rules may send its query already.
    method HoldRoute(launch: Launch, speculative: bool)
      requires Valid() && state.index < |q.rules| && !Races(q, state.index) && RouteSends(q, state.index, launch)
      modifies this`state, this`wake
      ensures Valid()
      ensures state == if speculative && old(state).terminal.None? then Speculated(old(state), launch) else old(state)
      ensures state == old(state) || SpeculatedFrom(old(state), state)
      ensures state.futures == old(state).futures ==> wake == old(wake)
    {
      if speculative && state.terminal.None? {
        SpeculateKeepsSound(q, z, now, state, launch);
        var f := Launch(launch, "", true);
        state := state.(terminal := Some(f));
      }
    }

    // Commit a route's exchange: the one already in flight for this rule, or a new one.
    method CommitRoute(launch: Launch) returns (pending: PendingExchange)
      requires Valid() && Commits(q, state.index) && !Races(q, state.index) && state.armed == []
      requires DecisionAt(q, state.index) == Exchange(launch)
      ensures Suspends(Commit(pending))
      ensures pending.InFlight? ==> pending.future < |state.futures| && state.futures[pending.future].launch == launch
      ensures pending.ToSend? ==> pending.launch == launch
      ensures pending.ToSend? <==> NotYetSent(state.futures, launch.site)
    {
      HeldRuleEnds(q, z, now, state);
      DecisionSite(q, state.index);
      if state.terminal.Some? && state.futures[state.terminal.value].launch.site == state.index {
        return InFlight(state.terminal.value);
      }
      HeldIsUnsent(q, z, now, state);
      return ToSend(launch);
    }

    // A matching route rule commits its exchange after the races; a speculative one sends it before.
    method ActRoute() returns (step: Option<Step>)
      requires Valid() && state.index < |q.rules| && !Races(q, state.index)
      requires q.rules[state.index].action.Route? && Matches(q, state.index, Path(q, state.index))
      requires AllAnswered(q, z, now, state.index)
      modifies this`state, this`wake
      ensures step.None? ==> Valid() && state == old(state).(index := old(state).index + 1)
      ensures step.Some? ==> Yields(step.value) && step.value.Suspended? && !step.value.suspension.Await?
      ensures step.Some? ==> state == old(state) || SpeculatedFrom(old(state), state)
      ensures state.futures == old(state).futures ==> wake == old(wake)
    {
      var Route(server, speculative, route) := q.rules[state.index].action;
      var resolved := q.ResolveRoute(server, route, state.options);
      if resolved.None? {
        PassBy();
        return None;
      }
      var launch := DnsRules.Launch.Launch(state.index, resolved.value.0, resolved.value.1);
      if state.armed != [] {
        HoldRoute(launch, speculative);
        return Some(Suspended(Drain));
      }
      var pending := CommitRoute(launch);
      return Some(Suspended(Commit(pending)));
    }

    // Whether the current rule matches what it binds.
    method MatchRule() returns (matched: bool)
      requires Kept() && state.index < |q.rules| && AllAnswered(q, z, now, state.index)
      requires q.rules[state.index].HasBindings() ==> Current(z, now, state)
      ensures matched == Matches(q, state.index, Path(q, state.index))
    {
      var rule := q.rules[state.index];
      var view := AnonymousResponse();
      matched := rule.Match(view, state.responses, q.late(state.index));
      if rule.HasBindings() {
        ShowsHere(q, z, now, state);
        assert rule.anonymous && state.anonymous.Some? ==> Path(q, state.index).anonymous.value.site in Bound(q, state.index);
        MatchAgrees(q, z, now, state, state.index, view);
      } else {
        assert rule.BoundResponses(state.responses, q.late(state.index)) == NamedSeen(q, state.index, Path(q, state.index));
      }
    }

    // A reply that needs no exchange is given once no race rule is pending.
    method ActReply(reply: Reply) returns (step: Step)
      requires Valid() && state.index < |q.rules| && !Races(q, state.index)
      requires Judge(q, state.index, Path(q, state.index)) == Some(Final(reply))
      ensures Yields(step)
    {
      if state.armed != [] {
        return Suspended(Drain);
      }
      HeldRuleEnds(q, z, now, state);
      return Finished(reply);
    }

    method ActOptions(route: RouteOptions)
      requires Valid() && state.index < |q.rules| && !Races(q, state.index)
      requires Matches(q, state.index, Path(q, state.index)) && AllAnswered(q, z, now, state.index)
      requires q.rules[state.index].action == SetOptions(route)
      modifies this`state
      ensures Valid() && state == old(state).(index := old(state).index + 1, options := Apply(old(state).options, route))
    {
      Pass(Apply(state.options, route));
    }

    // Carry out the action of a matching ordinary rule.
    method Act() returns (step: Option<Step>)
      requires Valid() && state.index < |q.rules| && !Races(q, state.index)
      requires Matches(q, state.index, Path(q, state.index)) && AllAnswered(q, z, now, state.index)
      requires q.rules[state.index].HasBindings() ==> Current(z, now, state)
      modifies this`state, this`wake
      ensures step.None? ==> Valid() && state.index == old(state).index + 1
      ensures step.Some? ==> Yields(step.value)
      ensures step.Some? ==> state == old(state) || SpeculatedFrom(old(state), state)
      ensures state == old(state) ==> wake == old(wake)
      ensures Extends(old(state).futures, state.futures) && state.armed == old(state).armed
    {
      step := None;
      match q.rules[state.index].action {
        case SetOptions(route) =>
          ActOptions(route);
        case Evaluate(_, _, _, _) =>
          var drain := ActEvaluate();
          if drain {
            step := Some(Suspended(Drain));
          }
        case Respond =>
          var s := ActRespond();
          step := Some(s);
        case Route(_, _, _) =>
          step := ActRoute();
        case Reject(how) =>
          var s := ActReply(
            if how == RejectDefault then Reply(Some(q.refused), None, Some(RejectDefault), None)
            else Reply(None, None, Some(RejectDrop), Some(Dropped)));
          step := Some(s);
        case Predefined(m) =>
          var s := ActReply(Reply(Some(m), None, None, None));
          step := Some(s);
      }
    }

    // A rule that matches for now, though it may not when it is looked at again, waits for race rules.
    method HoldBack() returns (step: Step)
      requires Valid() && state.index < |q.rules| && !Races(q, state.index) && state.armed != []
      requires z.fickle(now.step) && Delays(q, state.index, state.options)
      modifies this`state, this`wake
      ensures Yields(step) && step == Suspended(Drain)
      ensures state == old(state) || SpeculatedFrom(old(state), state)
      ensures state == old(state) ==> wake == old(wake)
      ensures Extends(old(state).futures, state.futures) && state.armed == old(state).armed
    {
      if q.rules[state.index].action.Route? {
        var Route(server, speculative, route) := q.rules[state.index].action;
        var resolved := q.ResolveRoute(server, route, state.options);
        HoldRoute(DnsRules.Launch.Launch(state.index, resolved.value.0, resolved.value.1), speculative);
      }
      return Suspended(Drain);
    }

    // Match an ordinary rule whose bound exchanges have answered, and act on it.
    method OrdinaryRule() returns (step: Option<Step>)
      requires Valid() && state.index < |q.rules| && !Races(q, state.index) && AllAnswered(q, z, now, state.index)
      requires q.rules[state.index].HasBindings() ==> Current(z, now, state)
      modifies this`state, this`wake
      ensures step.None? ==> Valid() && state.index == old(state).index + 1 && !Commits(q, old(state).index)
      ensures step.Some? ==> Yields(step.value) && (state == old(state) || SpeculatedFrom(old(state), state))
      ensures state == old(state) ==> wake == old(wake)
      ensures Extends(old(state).futures, state.futures) && state.armed == old(state).armed
    {
      if z.fickle(now.step) && state.armed != [] && Delays(q, state.index, state.options) {
        var s := HoldBack();
        return Some(s);
      }
      var matched := MatchRule();
      if !matched {
        PassBy();
        return None;
      }
      step := Act();
    }

    // A rule that is passed with its answers in does not commit, nor does any that fires in its sweep.
    ghost predicate Settles(i: nat)
      reads this
    {
      i < |q.rules| && !Commits(q, i) && (Races(q, i) ==> NoneFires(q, z, now.step, i + 1))
    }

    // A rule that binds responses is armed if it races, and otherwise waits for them.
    method BindingRule() returns (step: Option<Step>)
      requires Valid() && now.sub == 0 && state.index < |q.rules| && q.rules[state.index].HasBindings()
      modifies this
      ensures now.step == old(now).step && By(old(now), now)
      ensures step.None? ==> Valid() && state.index == old(state).index + 1
      ensures step.Some? ==> Yields(step.value)
      ensures step.Some? ==>
                || (!(step.value.Suspended? && !step.value.suspension.Commit?) && state.index == old(state).index + 1)
                || Halted(old(state), state)
                || SpeculatedFrom(old(state), state)
      ensures Halted(old(state), state) ==> wake == old(wake)
      ensures step.None? && AllAnswered(q, z, old(now), old(state).index) ==> Settles(old(state).index)
      ensures (step.None? || step == Some(Suspended(Drain))) && old(NoneReady(z, now, state, |state.armed|)) ==>
                NoneReady(z, old(now), state, |state.armed|)
    {
      ghost var before := state;
      Settle();
      DeliveryKeepsReadiness(q, z, now, before, state);
      if q.rules[state.index].race {
        step := RaceRule();
        return;
      }
      ghost var settled := state;
      step := AwaitingRule();
      HaltedCompose(before, settled, state);
    }

    // An ordinary rule waits for what it binds.
    method AwaitingRule() returns (step: Option<Step>)
      requires Valid() && Current(z, now, state) && state.index < |q.rules| && !Races(q, state.index)
      modifies this`state, this`wake
      ensures step.None? ==> Valid() && state.index == old(state).index + 1 && !Commits(q, old(state).index)
      ensures step.Some? ==> Yields(step.value) && (state == old(state) || SpeculatedFrom(old(state), state))
      ensures state == old(state) ==> wake == old(wake)
      ensures Extends(old(state).futures, state.futures)
      ensures old(NoneReady(z, now, state, |state.armed|)) ==> NoneReady(z, now, state, |state.armed|)
    {
      var f := FirstUnresolved();
      if f.Some? {
        return Some(Suspended(Await(f.value)));
      }
      ghost var before := state;
      step := OrdinaryRule();
      GrowthKeepsReadiness(q, z, now, before, state);
    }

    // Look at one rule, at one moment.
    method LookAtRule() returns (step: Option<Step>)
      requires Valid() && now.sub == 0 && state.index < |q.rules|
      modifies this
      ensures now.step == old(now).step && By(old(now), now)
      ensures step.None? ==> Valid() && state.index == old(state).index + 1
      ensures step.Some? ==> Yields(step.value)
      ensures step.Some? ==>
                || (!(step.value.Suspended? && !step.value.suspension.Commit?) && state.index == old(state).index + 1)
                || Halted(old(state), state)
                || SpeculatedFrom(old(state), state)
      ensures Halted(old(state), state) ==> wake == old(wake)
      ensures step.None? && AllAnswered(q, z, old(now), old(state).index) ==> Settles(old(state).index)
      ensures (step.None? || step == Some(Suspended(Drain))) && old(NoneReady(z, now, state, |state.armed|)) ==>
                NoneReady(z, old(now), state, |state.armed|)
    {
      if q.rules[state.index].HasBindings() {
        step := BindingRule();
      } else {
        ghost var before := state;
        step := OrdinaryRule();
        GrowthKeepsReadiness(q, z, now, before, state);
      }
    }

    // Look at one rule. `None` means the walk has moved on to the next one.
    method WalkRule() returns (step: Option<Step>)
      requires Valid() && state.index < |q.rules|
      modifies this
      ensures now.step == old(now).step + 1
      ensures step.None? ==> Valid() && state.index == old(state).index + 1
      ensures step.Some? ==> Yields(step.value)
      ensures step.Some? ==>
                || (!(step.value.Suspended? && !step.value.suspension.Commit?) && state.index == old(state).index + 1)
                || Halted(old(state), state)
                || SpeculatedFrom(old(state), state)
      ensures Halted(old(state), state) ==> Owed() <= old(Owed())
      ensures step.None? && AllAnswered(q, z, Begin(now), old(state).index) ==> Settles(old(state).index)
      ensures (step.None? || step == Some(Suspended(Drain))) && NoneReady(z, Begin(now), old(state), |old(state).armed|) ==>
                NoneReady(z, Begin(now), state, |state.armed|)
    {
      Tick();
      ghost var before := state;
      step := LookAtRule();
      if Halted(before, state) {
        CountsIgnoreSettling(before.futures, state.futures, z, now);
      }
    }

    // The schedule favours rule `aim`, which can win, and the walk is on course for it.
    ghost predicate Favoured(aim: nat) {
      aim <= |q.rules| && Winner(q, true, aim) && Favours(q, z, aim)
    }

    // One rule on the way to a favoured rule: it has its answers in, and nothing armed becomes ready.
    lemma FavouredNext(aim: nat, before: Moment, w: Walk, next: Option<Step>)
      requires Favoured(aim) && OnCourse(z, aim, before, w) && w.index < |q.rules| && now.step == before.step + 1
      requires next.None? ==> Valid() && state.index == w.index + 1
      requires next.None? && AllAnswered(q, z, Begin(now), w.index) ==> !Commits(q, w.index)
      requires (next.None? || next == Some(Suspended(Drain))) && NoneReady(z, Begin(now), w, |w.armed|) ==>
                 NoneReady(z, Begin(now), state, |state.armed|)
      requires next.Some? ==> Yields(next.value)
      requires next.Some? ==> state.index == w.index || (state.index == w.index + 1 && !(next.value.Suspended? && !next.value.suspension.Commit?))
      ensures if next.None? then OnCourse(z, aim, now, state) else Delivers(next.value, state.futures, DecisionAt(q, aim))
    {
      FavouredStaysUnready(q, z, aim, before, w);
      FavouredBindsEarly(q, z, aim, Begin(now));
      if next.Some? {
        FavouredStop(aim, next.value);
      }
    }

    // The walk ends with `aim`, or has halted and `aim` is due.
    ghost predicate ComesTo(aim: nat, step: Step)
      requires aim < |q.rules| && Commits(q, aim)
      reads this
    {
      if step.Finished? || step.suspension.Commit? then Delivers(step, state.futures, DecisionAt(q, aim))
      else IsDue(q, aim, now, state.index)
    }

    lemma CaughtEnd(aim: nat, step: Step)
      requires Caught(q, z, aim) && Yields(step) && state.index <= |q.rules| && state.index <= now.step <= CatchAt(q, aim).step
      ensures step.Finished? || step.suspension.Commit? ==> ComesTo(aim, step)
    {
      match step {
        case Finished(reply) =>
          CaughtEnds(q, z, aim, now, state.index, Final(reply));
        case Suspended(Commit(pending)) =>
          CaughtEnds(q, z, aim, now, state.index, PendingDecision(pending, state.futures));
        case Suspended(_) =>
      }
    }

    lemma CaughtHalt(aim: nat, s: Suspension)
      requires Caught(q, z, aim) && Suspends(s) && !s.Commit? && state.index <= |q.rules|
      requires s.Drain? ==> NoneReady(z, Begin(now), state, |state.armed|)
      requires now.step == if state.index < |q.rules| then state.index + 1 else state.index
      requires aim < state.index ==> HaltsFrom(q, aim, state.index)
      ensures IsDue(q, aim, now, state.index)
    {
      CatchIsAhead(q, aim, state.index);
      if s.Await? {
        CaughtAwaits(q, z, aim, now, state.index, state.futures[s.future].launch.site);
      } else {
        CaughtHalts(q, z, aim, now, state);
      }
    }

    // One rule on the way to the sweep the schedule catches.
    lemma CaughtNext(aim: nat, before: Moment, w: Walk, next: Option<Step>)
      requires Caught(q, z, aim) && OnWay(q, z, aim, before, w) && w.index < |q.rules| && now.step == before.step + 1
      requires next.None? ==> Valid() && state.index == w.index + 1
      requires next.None? && AllAnswered(q, z, Begin(now), w.index) ==> Settles(w.index)
      requires next.None? || next == Some(Suspended(Drain)) ==> NoneReady(z, Begin(now), state, |state.armed|)
      requires next.Some? ==> Yields(next.value)
      requires next.Some? ==> state.index == w.index || (state.index == w.index + 1 && !(next.value.Suspended? && !next.value.suspension.Commit?))
      ensures if next.None? then OnWay(q, z, aim, now, state) else ComesTo(aim, next.value)
    {
      CatchIsAhead(q, aim, w.index);
      if next.None? {
        CaughtOn(q, z, aim, before, w, now, state);
      } else if next.value.Suspended? && !next.value.suspension.Commit? {
        CaughtHalt(aim, next.value.suspension);
      } else {
        CaughtEnd(aim, next.value);
      }
    }

    // Look at one rule of a walk that may be on its way to a sweep the schedule catches.
    method WalkRuleOnWay(ghost aim: nat) returns (next: Option<Step>)
      requires Valid() && state.index < |q.rules|
      modifies this
      ensures now.step == old(now).step + 1
      ensures next.None? ==> Valid() && state.index == old(state).index + 1
      ensures next.Some? ==> Yields(next.value)
      ensures next.Some? ==>
                || (!(next.value.Suspended? && !next.value.suspension.Commit?) && state.index == old(state).index + 1)
                || Halted(old(state), state)
                || SpeculatedFrom(old(state), state)
      ensures Halted(old(state), state) ==> Owed() <= old(Owed())
      ensures next.None? && AllAnswered(q, z, Begin(now), old(state).index) ==> !Commits(q, old(state).index)
      ensures (next.None? || next == Some(Suspended(Drain))) && NoneReady(z, Begin(now), old(state), |old(state).armed|) ==>
                NoneReady(z, Begin(now), state, |state.armed|)
      ensures Caught(q, z, aim) && OnWay(q, z, aim, old(now), old(state)) ==>
                if next.None? then OnWay(q, z, aim, now, state) else ComesTo(aim, next.value)
    {
      ghost var before, w := now, state;
      next := WalkRule();
      if Caught(q, z, aim) && OnWay(q, z, aim, before, w) {
        CaughtLook(q, z, aim, before, w);
        CaughtNext(aim, before, w, next);
      }
    }

    // Look at one rule of a walk that may be on course for a favoured rule.
    method WalkRuleTowards(ghost aim: nat) returns (next: Option<Step>)
      requires Valid() && state.index < |q.rules|
      modifies this
      ensures next.None? ==> Valid() && state.index == old(state).index + 1
      ensures next.Some? ==> Yields(next.value)
      ensures next.Some? ==> state.index == old(state).index + 1 || Halted(old(state), state) || SpeculatedFrom(old(state), state)
      ensures By(old(now), now)
      ensures Halted(old(state), state) ==> Owed() <= old(Owed())
      ensures Favoured(aim) && OnCourse(z, aim, old(now), old(state)) ==>
                if next.None? then OnCourse(z, aim, now, state) else Delivers(next.value, state.futures, DecisionAt(q, aim))
      ensures Caught(q, z, aim) && OnWay(q, z, aim, old(now), old(state)) ==>
                if next.None? then OnWay(q, z, aim, now, state) else ComesTo(aim, next.value)
    {
      ghost var before, w := now, state;
      next := WalkRuleOnWay(aim);
      if Favoured(aim) && OnCourse(z, aim, before, w) {
        FavouredNext(aim, before, w, next);
      }
    }

    // Past the last rule: wait for the races, then send to the default server.
    method DefaultRoute(ghost aim: nat) returns (step: Step)
      requires Valid() && state.index == |q.rules|
      ensures Yields(step) && step.Suspended?
      ensures Favoured(aim) && OnCourse(z, aim, now, state) ==> Delivers(step, state.futures, DecisionAt(q, aim))
      ensures Caught(q, z, aim) && OnWay(q, z, aim, now, state) ==> ComesTo(aim, step)
    {
      if state.armed != [] {
        step := Suspended(Drain);
      } else {
        HeldRuleEnds(q, z, now, state);
        HeldIsUnsent(q, z, now, state);
        step := Suspended(Commit(ToSend(DnsRules.Launch.Launch(state.index, q.final, state.options))));
      }
      if Favoured(aim) && OnCourse(z, aim, now, state) {
        FavouredStop(aim, step);
      }
      if Caught(q, z, aim) && OnWay(q, z, aim, now, state) {
        CaughtDefault(aim, step);
      }
    }

    lemma CaughtDefault(aim: nat, step: Step)
      requires Caught(q, z, aim) && OnWay(q, z, aim, now, state) && state.index == |q.rules| && Yields(step) && step.Suspended?
      ensures ComesTo(aim, step)
    {
      CatchIsAhead(q, aim, state.index);
      if step.suspension.Commit? {
        CaughtEnd(aim, step);
      } else {
        CaughtHalt(aim, step.suspension);
      }
    }

    // Walk on from the current rule until the walk ends or has to wait.
    method WalkRules(ghost aim: nat) returns (step: Step)
      requires Valid()
      modifies this
      ensures Yields(step)
      ensures state.index > old(state).index || Halted(old(state), state) || SpeculatedFrom(old(state), state)
      ensures By(old(now), now)
      ensures Halted(old(state), state) ==> Owed() <= old(Owed())
      ensures Favoured(aim) && old(Untouched()) ==> Delivers(step, state.futures, DecisionAt(q, aim))
      ensures Caught(q, z, aim) && old(Untouched()) ==> ComesTo(aim, step)
    {
      while state.index < |q.rules|
        invariant Valid() && old(state).index <= state.index && By(old(now), now)
        invariant state.index == old(state).index ==> state == old(state) && Owed() <= old(Owed())
        invariant Favoured(aim) && old(Untouched()) ==> OnCourse(z, aim, now, state)
        invariant Caught(q, z, aim) && old(Untouched()) ==> OnWay(q, z, aim, now, state)
        decreases |q.rules| - state.index
      {
        var next := WalkRuleTowards(aim);
        if next.Some? {
          return next.value;
        }
      }
      step := DefaultRoute(aim);
    }

    // Where a favoured walk stops, it ends with the favoured rule.
    lemma FavouredStop(aim: nat, step: Step)
      requires now.step <= aim + 1
      requires state.index <= aim + 1 && (step.Suspended? && !step.suspension.Commit? ==> state.index <= aim)
      requires step == Suspended(Drain) ==> NoneReady(z, Begin(now), state, |state.armed|)
      ensures Favoured(aim) && Yields(step) ==> Delivers(step, state.futures, DecisionAt(q, aim))
    {
      if Favoured(aim) && Yields(step) {
        match step {
          case Finished(reply) =>
            FavouredEnds(q, z, aim, now, state.index, Final(reply));
          case Suspended(Commit(pending)) =>
            FavouredEnds(q, z, aim, now, state.index, PendingDecision(pending, state.futures));
          case Suspended(Await(f)) =>
            FavouredAwaitsNothing(q, z, aim, now, state.index, state.futures[f].launch.site);
          case Suspended(Drain) =>
            FavouredDrainsNothing(q, z, aim, now, state);
        }
      }
    }

    // Cancel every exchange but, possibly, one that is still wanted.
    method Cancel(wanted: Option<nat>)
      modifies this`state
      ensures state == old(state).(futures := state.futures) && |state.futures| == |old(state).futures|
      ensures forall a | 0 <= a < |state.futures| ::
                state.futures[a] == if wanted == Some(a) then old(state).futures[a] else old(state).futures[a].(cancelled := true)
      ensures SameSends(old(state).futures, state.futures)
      ensures wanted.None? ==> AllCancelled(state.futures)
      ensures OncePerRule(old(state).futures) ==> OncePerRule(state.futures)
    {
      for f := 0 to |state.futures|
        invariant state == old(state).(futures := state.futures) && |state.futures| == |old(state).futures|
        invariant forall a | f <= a < |state.futures| :: state.futures[a] == old(state).futures[a]
        invariant forall a | 0 <= a < f ::
                    state.futures[a] == if wanted == Some(a) then old(state).futures[a] else old(state).futures[a].(cancelled := true)
      {
        if wanted != Some(f) {
          state := state.(futures := state.futures[f := state.futures[f].(cancelled := true)]);
        }
      }
    }

    /** Wait for the committed exchange, cancelling all others first. An exchange that is
        sent now ends with the context by itself, as one of its outcomes. */
    method FinishPending(pending: PendingExchange, cancellable: bool) returns (reply: Reply, last: Option<Launch>)
      requires NoneCancelled(state.futures) && OncePerRule(state.futures) && Sendable(pending, state.futures)
      modifies this
      ensures AllCancelled(state.futures) && SentOnce(state.futures, last)
      ensures state.index == old(state).index && SameSends(old(state).futures, state.futures)
      ensures last == if pending.ToSend? then Some(pending.launch) else None
      ensures PendingDecision(pending, old(state).futures).launch in SentInAll(state.futures, last)
      ensures || (cancellable && pending.InFlight? && reply == ContextEnded)
              || reply == Complete(q, PendingDecision(pending, old(state).futures))
    {
      Cancel(if pending.InFlight? then Some(pending.future) else None);
      match pending {
        case InFlight(f) =>
          var ended := *;
          if cancellable && ended {
            reply := ContextEnded;
          } else {
            now := if Resolved(f) then now else z.done(state.futures[f].launch.site);
            reply := DeliveredReply(q, state.futures[f]);
          }
          last := None;
        case ToSend(launch) =>
          reply, last := ReplyOf(q, launch), Some(launch);
      }
      Cancel(None);
      assert pending.InFlight? ==> SentInAll(state.futures, last)[pending.future] == old(state).futures[pending.future].launch;
      assert pending.ToSend? ==> SentInAll(state.futures, last)[|state.futures|] == pending.launch;
    }

    // Send the committed exchange after cancelling everything in flight.
    method HandOver(launch: Launch) returns (reply: Reply, last: Option<Launch>)
      requires Suspends(Commit(ToSend(launch)))
      modifies this`state
      ensures AllCancelled(state.futures) && SentOnce(state.futures, last) && last == Some(launch)
      ensures state.index == old(state).index && SameSends(old(state).futures, state.futures)
      ensures Winning(q, Steady(z), state.index, Exchange(launch)) && reply == Complete(q, Exchange(launch))
    {
      EndsIsWinning(q, z, now, state.index, Exchange(launch));
      Cancel(None);
      reply, last := ReplyOf(q, launch), Some(launch);
    }

    // A suspension as the driver keeps it; what is awaited may have answered since.
    ghost predicate Waits(s: Suspension)
      reads this
    {
      match s
      case Await(f) => Valid() && f < |state.futures|
      case Drain => Valid()
      case Commit(pending) =>
        && Kept()
        && state.armed == []
        && Sendable(pending, state.futures)
        && Winning(q, Steady(z), state.index, PendingDecision(pending, state.futures))
    }

    lemma SuspendsWaits(s: Suspension)
      requires Suspends(s)
      ensures Waits(s)
    {
      match s
      case Await(_) =>
      case Drain =>
      case Commit(pending) =>
        EndsIsWinning(q, z, now, state.index, PendingDecision(pending, state.futures));
    }

    // Time has passed: deliver what has answered and judge the armed rules that are ready.
    method Poll(ghost step: nat, ghost passed: nat) returns (d: Option<Decision>)
      requires Kept() && (state.armed != [] ==> Valid()) && step == now.step + 1 && passed == state.index <= |q.rules|
      modifies this
      ensures Kept() && By(old(now), now) && Owed() <= old(Owed())
      ensures Polled(old(state), state)
      ensures d.Some? ==> Winning(q, Steady(z), state.index, d.value) && old(state).armed != []
      ensures d.Some? && d.value.Exchange? ==> NotYetSent(state.futures, d.value.launch.site)
      ensures d.None? && old(Valid()) ==> Valid() && NoneReady(z, Begin(now), state, |state.armed|)
      ensures old(Valid()) ==> SweptTo(q, z, step, passed, d)
    {
      ghost var before := state;
      Tick();
      Settle();
      ghost var settled := state;
      d := Sweep();
      PolledCompose(before, settled, state);
      if d.Some? {
        EndsIsWinning(q, z, now, state.index, d.value);
      }
    }

    // Some future has not posted its token yet, so blocking now will end.
    lemma UnansweredIsHope(f: nat)
      requires Kept() && f < |state.futures| && !Answered(z, Begin(now), state.futures[f].launch.site)
      ensures Hopeful()
    {
      assert By(z.done(state.futures[f].launch.site), Moment(z.sent(state.futures[f].launch.site), 0));
    }

    lemma UnreadyIsHope()
      requires Valid() && state.armed != [] && NoneReady(z, Begin(now), state, |state.armed|)
      ensures Hopeful()
    {
      var a := state.armed[0];
      assert ArmedWell(q, z, now, state, a) && !Ready(z, Begin(now), state.futures, a);
      var p :| 0 <= p < |a.pending| &&
               !(a.pending[p] < |state.futures| && Answered(z, Begin(now), state.futures[a.pending[p]].launch.site));
      UnansweredIsHope(a.pending[p]);
    }

    // Answers may still arrive between deciding to block and blocking.
    method Block()
      requires Valid() && Hopeful()
      modifies this`now, this`wake
      ensures Valid() && By(old(now), now) && Owed() < old(Owed())
    {
      Tick();
      AwaitWake();
    }

    ghost predicate Marked(s: Suspension, m: Mark)
      reads this
    {
      && |state.armed| <= m.armed
      && (s.Drain? ==> m.armed > 0)
      && (s.Await? ==>
            && s.future < |state.futures|
            && By(m.made, now)
            && !Answered(z, m.made, state.futures[s.future].launch.site)
            && m.unanswered == Unanswered(state.futures, z, m.made))
    }

    ghost function MarkOf(): Mark
      reads this
    {
      Mark(now, |state.armed|, Unanswered(state.futures, z, now))
    }

    // The walk is nearer its end than it was.
    twostate predicate Nearer(s: Suspension, m: Mark, s': Suspension, m': Mark)
      reads this
    {
      || old(state).index < state.index
      || (state.index == old(state).index && old(state).terminal.None? && state.terminal.Some?)
      || (&& state.index == old(state).index
          && state.terminal == old(state).terminal
          && Owed() <= old(Owed())
          && (|| Owed() < old(Owed())
              || m'.armed < m.armed
              || (m'.armed == m.armed && Rank(s', m') < Rank(s, m))))
    }

    // Walk on after what the walk waited for has come.
    method WalkOn(s: Suspension, ghost m: Mark) returns (step: Step, ghost m': Mark)
      requires Waits(s) && Marked(s, m) && !s.Commit?
      requires s.Await? ==> Resolved(s.future)
      requires s.Drain? ==> state.armed == []
      modifies this
      ensures Yields(step)
      ensures step.Suspended? ==> Marked(step.suspension, m') && Nearer(s, m, step.suspension, m')
    {
      ghost var start, began := state, now;
      if s.Await? {
        UnansweredDrops(state.futures, z, m.made, now);
      }
      step := WalkRules(0);
      m' := MarkOf();
      if Halted(start, state) {
        CountsIgnoreSettling(start.futures, state.futures, z, now);
        UnansweredDrops(start.futures, z, began, now);
      }
    }

    // The reply for a decision the sweep came to.
    method Conclude(d: Decision, cancellable: bool) returns (reply: Reply, last: Option<Launch>)
      requires Kept() && Winning(q, Steady(z), state.index, d)
      requires d.Exchange? ==> NotYetSent(state.futures, d.launch.site)
      modifies this
      ensures AllCancelled(state.futures) && SentOnce(state.futures, last) && reply == Complete(q, d)
      ensures Permitted(q, Steady(z), cancellable, reply, state.futures, last)
    {
      ghost var before := state.futures;
      match d {
        case Final(r) =>
          Cancel(None);
          reply, last := r, None;
        case Exchange(launch) =>
          reply, last := FinishPending(ToSend(launch), cancellable);
      }
      SameFuturesKeepSent(q, state.index, before, state.futures);
      assert RepliesBy(q, Steady(z), reply, state.futures, last, state.index, d);
    }

    // A walk that would have to wait blocks until it is woken.
    method Wait(s: Suspension) returns (waited: bool)
      requires Waits(s) && !s.Commit? && NoneReady(z, Begin(now), state, |state.armed|)
      modifies this`now, this`wake
      ensures Waits(s) && By(old(now), now)
      ensures waited <==> if s.Await? then old(!Resolved(s.future)) else state.armed != []
      ensures waited ==> Owed() < old(Owed())
      ensures !waited ==> Owed() == old(Owed()) && now == old(now) && wake == old(wake)
    {
      waited := false;
      match s {
        case Await(f) =>
          if !Resolved(f) {
            UnansweredIsHope(f);
            Block();
            waited := true;
          }
        case Drain =>
          if state.armed != [] {
            UnreadyIsHope();
            Block();
            waited := true;
          }
      }
    }

    // The driver's next move on a walk that has no reply yet: wait, or walk on.
    method Proceed(s: Suspension, ghost m: Mark) returns (step: Step, ghost m': Mark)
      requires Waits(s) && Marked(s, m) && !s.Commit? && NoneReady(z, Begin(now), state, |state.armed|)
      modifies this
      ensures step.Finished? ==> Yields(step)
      ensures step.Suspended? ==>
                Waits(step.suspension) && Marked(step.suspension, m') && Nearer(s, m, step.suspension, m')
    {
      var waited := Wait(s);
      if waited {
        step, m' := Suspended(s), m;
      } else {
        step, m' := WalkOn(s, m);
        if step.Suspended? {
          SuspendsWaits(step.suspension);
        }
      }
    }

    // Finish a committed exchange with a permitted reply.
    method Deliver(pending: PendingExchange, cancellable: bool) returns (reply: Reply, last: Option<Launch>)
      requires Waits(Commit(pending))
      modifies this
      ensures AllCancelled(state.futures) && SentOnce(state.futures, last)
      ensures Permitted(q, Steady(z), cancellable, reply, state.futures, last)
      ensures (cancellable && reply == ContextEnded) || reply == Complete(q, PendingDecision(pending, old(state).futures))
    {
      ghost var d, before := PendingDecision(pending, state.futures), state.futures;
      reply, last := FinishPending(pending, cancellable);
      SameFuturesKeepSent(q, state.index, before, state.futures);
      assert !(cancellable && reply == ContextEnded) ==> RepliesBy(q, Steady(z), reply, state.futures, last, state.index, d);
    }

    // Give up, or end with a reply that needs no exchange.
    method End(r: Reply, cancellable: bool) returns (reply: Reply, last: Option<Launch>)
      requires Kept()
      requires (cancellable && r == ContextEnded) || Winning(q, Steady(z), state.index, Final(r))
      modifies this`state
      ensures reply == r && AllCancelled(state.futures) && SentOnce(state.futures, last)
      ensures Permitted(q, Steady(z), cancellable, reply, state.futures, last)
    {
      ghost var before := state.futures;
      Cancel(None);
      SameFuturesKeepSent(q, state.index, before, state.futures);
      assert !(cancellable && r == ContextEnded) ==> RepliesBy(q, Steady(z), r, state.futures, None, state.index, Final(r));
      return r, None;
    }

    // Proceed, unless the context has ended.
    method GoOn(s: Suspension, cancellable: bool, ghost m: Mark)
      returns (reply: Option<Reply>, last: Option<Launch>, next: Suspension, ghost m': Mark)
      requires Waits(s) && Marked(s, m) && !s.Commit? && NoneReady(z, Begin(now), state, |state.armed|)
      modifies this
      ensures reply.Some? ==>
                && AllCancelled(state.futures) && SentOnce(state.futures, last)
                && Permitted(q, Steady(z), cancellable, reply.value, state.futures, last)
      ensures reply.None? ==> Waits(next) && Marked(next, m') && Nearer(s, m, next, m')
    {
      next, m', last := s, m, None;
      var r;
      var ended := *;
      if cancellable && ended {
        r, last := End(ContextEnded, cancellable);
        return Some(r), last, next, m';
      }
      var step;
      step, m' := Proceed(s, m);
      match step {
        case Finished(final) =>
          EndsIsWinning(q, z, now, state.index, Final(final));
          r, last := End(final, cancellable);
          return Some(r), last, next, m';
        case Suspended(n) =>
          return None, None, n, m';
      }
    }

    // One turn of the driver: look at what has come, and reply or proceed.
    method Turn(s: Suspension, cancellable: bool, ghost m: Mark, ghost step: nat, ghost passed: nat)
      returns (reply: Option<Reply>, last: Option<Launch>, next: Suspension, ghost m': Mark, ghost swept: Option<Decision>)
      requires Waits(s) && Marked(s, m) && step == now.step + 1 && passed == state.index <= |q.rules|
      modifies this
      ensures reply.Some? ==>
                && AllCancelled(state.futures) && SentOnce(state.futures, last)
                && Permitted(q, Steady(z), cancellable, reply.value, state.futures, last)
      ensures s.Commit? ==>
                && reply.Some?
                && (|| (cancellable && reply.value == ContextEnded)
                    || reply.value == Complete(q, PendingDecision(s.pending, old(state).futures)))
      ensures !s.Commit? ==> SweptTo(q, z, step, passed, swept)
      ensures swept.Some? ==> reply == Some(Complete(q, swept.value))
      ensures reply.None? ==> Waits(next) && Marked(next, m') && Nearer(s, m, next, m')
    {
      ghost var before := state;
      next, m', last := s, m, None;
      var r;
      var d := Poll(step, passed);
      swept := d;
      if d.Some? {
        r, last := Conclude(d.value, cancellable);
        return Some(r), last, next, m', swept;
      }
      if s.Commit? {
        PendingStays(s.pending, before.futures, state.futures);
        r, last := Deliver(s.pending, cancellable);
        return Some(r), last, next, m', swept;
      }
      MarkStays(s, m, before.futures, state.futures, z);
      reply, last, next, m' := GoOn(s, cancellable, m);
    }

    /** Drive a suspended walk to its reply. Every way out cancels every exchange, and
        the loop ends because each turn brings the walk nearer its end. If the first sweep
        comes to something, that is the reply. */
    method Resume(first: Suspension, cancellable: bool, ghost step: nat, ghost passed: nat)
      returns (reply: Reply, last: Option<Launch>, ghost swept: Option<Decision>)
      requires Suspends(first) && step == now.step + 1 && passed == state.index <= |q.rules|
      modifies this
      ensures AllCancelled(state.futures) && SentOnce(state.futures, last)
      ensures Permitted(q, Steady(z), cancellable, reply, state.futures, last)
      ensures first.Commit? ==>
                || (cancellable && reply == ContextEnded)
                || reply == Complete(q, PendingDecision(first.pending, old(state).futures))
      ensures !first.Commit? ==> SweptTo(q, z, step, passed, swept)
      ensures swept.Some? ==> reply == Complete(q, swept.value)
    {
      ghost var mark := MarkOf();
      SuspendsWaits(first);
      var r, suspension;
      r, last, suspension, mark, swept := Turn(first, cancellable, mark, step, passed);
      if r.Some? {
        return r.value, last, swept;
      }
      reply, last := ResumeOn(suspension, cancellable, mark);
    }

    // Turn after turn until there is a reply.
    method ResumeOn(next: Suspension, cancellable: bool, ghost m: Mark) returns (reply: Reply, last: Option<Launch>)
      requires Waits(next) && Marked(next, m)
      modifies this
      ensures AllCancelled(state.futures) && SentOnce(state.futures, last)
      ensures Permitted(q, Steady(z), cancellable, reply, state.futures, last)
    {
      var suspension := next;
      ghost var mark := m;
      while true
        invariant Waits(suspension) && Marked(suspension, mark)
        decreases |q.rules| - state.index, if state.terminal.None? then 1 else 0, Owed(), mark.armed, Rank(suspension, mark)
      {
        var r;
        ghost var swept;
        r, last, suspension, mark, swept := Turn(suspension, cancellable, mark, now.step + 1, state.index);
        if r.Some? {
          return r.value, last;
        }
      }
    }

    // The same for a walk that may have halted with rule `aim` due.
    method ResumeFor(first: Suspension, cancellable: bool, ghost aim: nat) returns (reply: Reply, last: Option<Launch>)
      requires Suspends(first) && state.index <= |q.rules|
      modifies this
      ensures AllCancelled(state.futures) && SentOnce(state.futures, last)
      ensures Permitted(q, Steady(z), cancellable, reply, state.futures, last)
      ensures first.Commit? ==>
                || (cancellable && reply == ContextEnded)
                || reply == Complete(q, PendingDecision(first.pending, old(state).futures))
      ensures Caught(q, z, aim) && IsDue(q, aim, old(now), old(state).index) && !first.Commit? ==> reply == Complete(q, DecisionAt(q, aim))
    {
      ghost var halted, passed, swept := now, state.index, None;
      reply, last, swept := Resume(first, cancellable, halted.step + 1, passed);
      if Caught(q, z, aim) && IsDue(q, aim, halted, passed) && !first.Commit? {
        CaughtDue(q, z, aim, halted, passed, swept);
      }
    }

    /** Reply to a walk that has stopped; `handOver` tells whether an exchange committed to
        at once is handed over unsent. */
    method Answer(step: Step, cancellable: bool, handOver: bool, ghost aim: nat)
      returns (reply: Reply, last: Option<Launch>)
      requires Yields(step)
      modifies this
      ensures AllCancelled(state.futures) && SentOnce(state.futures, last)
      ensures Permitted(q, Steady(z), cancellable, reply, state.futures, last)
      ensures Favoured(aim) && Delivers(step, old(state).futures, DecisionAt(q, aim)) && !cancellable ==>
                reply == Complete(q, DecisionAt(q, aim))
      ensures Caught(q, z, aim) && old(ComesTo(aim, step)) && !cancellable ==> reply == Complete(q, DecisionAt(q, aim))
    {
      match step {
        case Finished(r) =>
          EndsIsWinning(q, z, now, state.index, Final(r));
          reply, last := End(r, cancellable);
        case Suspended(suspension) =>
          if handOver && suspension.Commit? && suspension.pending.ToSend? {
            ghost var before := state.futures;
            reply, last := HandOver(suspension.pending.launch);
            SameFuturesKeepSent(q, state.index, before, state.futures);
            assert last.value in SentInAll(state.futures, last);
            assert RepliesBy(q, Steady(z), reply, state.futures, last, state.index, Exchange(suspension.pending.launch));
          } else {
            reply, last := ResumeFor(suspension, cancellable, aim);
          }
      }
    }
  }

  /** If at most one race rule commits ahead of the first ordinary rule that does, every
      permitted reply is the plain reading's: the arrival of answers makes no difference. */
  lemma LoneRaceReply(q: Query, steady: bool, ordinary: nat, reply: Reply, futures: seq<Future>, last: Option<Launch>)
    requires ordinary <= |q.rules| && Commits(q, ordinary) && !Races(q, ordinary)
    requires forall k | 0 <= k < ordinary && Commits(q, k) :: Races(q, k)
    requires forall k, l | 0 <= k < l < ordinary && Commits(q, k) :: !Commits(q, l)
    requires Permitted(q, steady, false, reply, futures, last)
    ensures var d := Sequential(q, 0, Start(q)); reply == Complete(q, d) && (d.Exchange? ==> d.launch in SentInAll(futures, last))
  {
    var p: nat, d: Decision :| RepliesBy(q, steady, reply, futures, last, p, d);
    var j: nat :| j <= p && Winner(q, steady, j) && DecisionAt(q, j) == d;
    LoneRaceIsDeterministic(q, steady, ordinary, j);
  }

  /** Spelled out: a permitted reply is what some winning rule replies by its action, and
      that rule's exchange, if it commits to one, is among what was sent. */
  lemma PermittedDoes(q: Query, steady: bool, reply: Reply, futures: seq<Future>, last: Option<Launch>)
    requires Permitted(q, steady, false, reply, futures, last)
    ensures exists j: nat, d: Decision ::
              && j <= |q.rules| && Winner(q, steady, j) && Does(q, j, d, reply)
              && (d.Exchange? ==> d.launch in SentInAll(futures, last))
  {
    var p: nat, d: Decision :| RepliesBy(q, steady, reply, futures, last, p, d);
    var j: nat :| j <= p && Winner(q, steady, j) && DecisionAt(q, j) == d;
    CommittedDoes(q, j);
  }

  // In particular without race rules.
  lemma RacelessReply(q: Query, steady: bool, reply: Reply, futures: seq<Future>, last: Option<Launch>)
    requires (forall i | 0 <= i < |q.rules| :: !Races(q, i)) && Permitted(q, steady, false, reply, futures, last)
    ensures var d := Sequential(q, 0, Start(q)); reply == Complete(q, d) && (d.Exchange? ==> d.launch in SentInAll(futures, last))
  {
    LoneRaceReply(q, steady, StopIndex(q, 0), reply, futures, last);
  }

  /** Answer a query by its rules, waiting where the walk waits. Whatever the schedule, the
      reply is that of a winning rule; and when the schedule favours the winner `aim`, or
      catches a sweep for it, it is that winner's. Every exchange the walk has sent has been
      cancelled; these, and the exchange committed to last, are all that was sent, and of
      each rule at most one. */
  method ExchangeWithRules(q: Query, z: Schedule, cancellable: bool, ghost aim: nat)
    returns (reply: Reply, futures: seq<Future>, last: Option<Launch>)
    requires WellFormed(q.rules) && Causal(z)
    ensures AllCancelled(futures) && OnceEach(SentInAll(futures, last))
    ensures Permitted(q, Steady(z), cancellable, reply, futures, last)
    ensures Brings(q, z, aim) && !cancellable ==> reply == Complete(q, DecisionAt(q, aim))
  {
    var walk := new Walker(q, z);
    var step := walk.WalkRules(aim);
    reply, last := walk.Answer(step, cancellable, false, aim);
    futures := walk.state.futures;
    SentOnceEach(futures, last);
  }

  // The same for a caller that is called back: a committed exchange is handed over unsent.
  method ExchangeWithRulesAsync(q: Query, z: Schedule, cancellable: bool, ghost aim: nat)
    returns (reply: Reply, futures: seq<Future>, last: Option<Launch>)
    requires WellFormed(q.rules) && Causal(z)
    ensures AllCancelled(futures) && OnceEach(SentInAll(futures, last))
    ensures Permitted(q, Steady(z), cancellable, reply, futures, last)
    ensures Brings(q, z, aim) && !cancellable ==> reply == Complete(q, DecisionAt(q, aim))
  {
    var walk := new Walker(q, z);
    var step := walk.WalkRules(aim);
    reply, last := walk.Answer(step, cancellable, true, aim);
    futures := walk.state.futures;
    SentOnceEach(futures, last);
  }
}
