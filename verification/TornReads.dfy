/** The code delivers responses first and reads which exchanges have answered later, and
    it reads so for one rule after the other. These lemmas say exactly what an answer in
    between costs: a rule that is not shown it, or a later race rule that gets ahead of an
    earlier one. */
module TornReads {
  import opened Wrappers
  import opened DnsRules
  import opened SequentialReading
  import opened WalkState
  import opened WalkSteps

  // ----- an answer between delivering and matching

  // What a rule would be shown if nothing was late.
  function AllSeen(q: Query, i: nat, s: Reading): map<string, Message>
    requires i < |q.rules|
  {
    map t | t in q.rules[i].tags && t in s.named && Seen(q, s.named[t]).Some? :: Seen(q, s.named[t]).value
  }

  // The tags rule i binds whose exchanges had not answered when responses were delivered.
  function LateTags(q: Query, z: Schedule, settled: Moment, i: nat): set<string>
    requires i < |q.rules|
  {
    set t | t in q.rules[i].tags && t in Path(q, i).named && !Answered(z, settled, Path(q, i).named[t].site)
  }

  // Every tagged exchange the rule binds that has a message to show had answered by then.
  predicate InTime(q: Query, z: Schedule, settled: Moment, i: nat)
    requires i < |q.rules|
  {
    forall t | t in AllSeen(q, i, Path(q, i)) :: Answered(z, settled, Path(q, i).named[t].site)
  }

  // Responses delivered at the moment `settled` to a walk that has come as far as rule i or further.
  ghost predicate Settled(q: Query, z: Schedule, settled: Moment, w: Walk, i: nat) {
    Books(q, z, settled, w) && Current(z, settled, w) && WellFormed(q.rules) && i <= w.index && i < |q.rules|
  }

  // A bound tag has been delivered exactly if its exchange had answered.
  lemma DeliveredIfAnswered(q: Query, z: Schedule, settled: Moment, w: Walk, i: nat, t: string)
    requires Settled(q, z, settled, w, i) && t in q.rules[i].tags
    ensures t in w.responses <==> t in Path(q, i).named && Answered(z, settled, Path(q, i).named[t].site)
    ensures t in w.responses ==> w.responses[t] == Seen(q, Path(q, i).named[t])
  {
    BoundTagsAreStable(q, i, w.index, t);
    assert t in w.responses ==> t in w.named;
    if t in w.named {
      assert w.futures[w.named[t]].tag == t;
      assert Answered(z, settled, w.futures[w.named[t]].launch.site) ==> w.futures[w.named[t]].settled;
    }
  }

  /** Matching a rule later than responses were delivered, on what had been delivered, is
      matching it on everything but the late tags. */
  lemma GapIsLate(q: Query, z: Schedule, settled: Moment, w: Walk, i: nat)
    requires Settled(q, z, settled, w, i) && q.late(i) == LateTags(q, z, settled, i)
    ensures q.rules[i].BoundResponses(w.responses, {}) == NamedSeen(q, i, Path(q, i))
    ensures var tag := q.rules[i].respondTag;
            tag in q.rules[i].tags ==> (tag in w.responses <==> tag in Path(q, i).named && tag !in q.late(i))
  {
    forall t | t in q.rules[i].tags
      ensures t in w.responses <==> t in Path(q, i).named && t !in q.late(i)
      ensures t in w.responses ==> w.responses[t] == Seen(q, Path(q, i).named[t])
    {
      DeliveredIfAnswered(q, z, settled, w, i, t);
    }
    LateViews(q, i, Path(q, i), w.responses);
  }

  lemma LateViews(q: Query, i: nat, s: Reading, responses: map<string, Option<Message>>)
    requires i < |q.rules|
    requires forall t | t in q.rules[i].tags ::
               && (t in responses <==> t in s.named && t !in q.late(i))
               && (t in responses ==> responses[t] == Seen(q, s.named[t]))
    ensures q.rules[i].BoundResponses(responses, {}) == NamedSeen(q, i, s)
  {
  }

  lemma {:induction false} TornViewsAt(q: Query, z: Schedule, settled: Moment, w: Walk, i: nat)
    requires Settled(q, z, settled, w, i)
    ensures q.rules[i].BoundResponses(w.responses, {}) == AllSeen(q, i, Path(q, i)) <==> InTime(q, z, settled, i)
  {
    forall t | t in q.rules[i].tags
      ensures t in w.responses <==> t in Path(q, i).named && Answered(z, settled, Path(q, i).named[t].site)
      ensures t in w.responses ==> w.responses[t] == Seen(q, Path(q, i).named[t])
    {
      DeliveredIfAnswered(q, z, settled, w, i, t);
    }
    ViewsIfInTime(q, z, settled, i, w.responses);
  }

  lemma ViewsIfInTime(q: Query, z: Schedule, settled: Moment, i: nat, responses: map<string, Option<Message>>)
    requires i < |q.rules|
    requires forall t | t in q.rules[i].tags ::
               && (t in responses <==> t in Path(q, i).named && Answered(z, settled, Path(q, i).named[t].site))
               && (t in responses ==> responses[t] == Seen(q, Path(q, i).named[t]))
    ensures q.rules[i].BoundResponses(responses, {}) == AllSeen(q, i, Path(q, i)) <==> InTime(q, z, settled, i)
  {
    if !InTime(q, z, settled, i) {
      var t :| t in AllSeen(q, i, Path(q, i)) && !Answered(z, settled, Path(q, i).named[t].site);
      assert t !in q.rules[i].BoundResponses(responses, {});
    }
  }

  /** Responses were delivered at the moment `settled` and the current rule is matched
      later, when all it binds has answered. It is shown what the plain reading shows iff
      every tagged exchange it binds that has a message to show had answered by then. */
  lemma {:induction false} TornViews(q: Query, z: Schedule, settled: Moment, w: Walk)
    requires Books(q, z, settled, w) && Current(z, settled, w) && w.index < |q.rules| && WellFormed(q.rules)
    ensures q.rules[w.index].BoundResponses(w.responses, {}) == AllSeen(q, w.index, Path(q, w.index)) <==>
              InTime(q, z, settled, w.index)
  {
    TornViewsAt(q, z, settled, w, w.index);
  }

  /** The same for an armed rule that a sweep finds ready later than responses were
      delivered. */
  lemma {:induction false} TornArmedViews(q: Query, z: Schedule, settled: Moment, w: Walk, a: Armed)
    requires Books(q, z, settled, w) && Current(z, settled, w) && WellFormed(q.rules)
    requires w.index <= |q.rules| && ArmedWell(q, z, settled, w, a)
    ensures q.rules[a.index].BoundResponses(w.responses, {}) == AllSeen(q, a.index, Path(q, a.index)) <==>
              InTime(q, z, settled, a.index)
  {
    TornViewsAt(q, z, settled, w, a.index);
  }

  // ----- a rule that is lost in the gap

  const Plain := RouteOptions(false, false, None, 0, None, false)
  const Server := Transport("server", false)
  const NoOptions := Options(0, false, false, None, 0, None, false)

  function AsksFor(tag: string): Views -> bool {
    (v: Views) => tag in v.named
  }

  // Ask `server` under the tag "x"; then answer with that response, as a race rule or as an ordinary one.
  function LostRuleQuery(race: bool, late: set<string>): Query {
    Query(
      [Rule([], false, "", false, Evaluate("server", "x", false, Plain), (v: Views) => true),
       Rule(["x"], false, "x", race, Respond, AsksFor("x"))],
      map["server" := Server], Server, true, NoOptions, 0, 0,
      (site, transport, options) => Got(7),
      i => if i == 1 then late else {})
  }

  // The answer comes in the course of step 2, in which the second rule is looked at.
  function LostRuleSchedule(): Schedule {
    Schedule(site => Moment(2, 1), site => 3, step => false)
  }

  lemma LostRulePath(race: bool, late: set<string>)
    ensures var q := LostRuleQuery(race, late);
            && Path(q, 1) == Reading(NoOptions, None, map["x" := Launch(0, Server, NoOptions)])
            && !Commits(q, 0) && !Races(q, 0) && Bound(q, 0) == {}
            && Races(q, 1) == race && Bound(q, 1) == {0}
  {
    var q := LostRuleQuery(race, late);
    assert Path(q, 0) == Start(q);
    assert Path(q, 1) == Advance(q, 0, Path(q, 0));
    assert "x" in q.rules[1].tags && Path(q, 1).named["x"].site == 0;
  }

  // The second rule commits unless it is not shown the response.
  lemma LostRuleCommits(race: bool, late: set<string>)
    ensures Commits(LostRuleQuery(race, late), 1) <==> "x" !in late
  {
    var q := LostRuleQuery(race, late);
    LostRulePath(race, late);
    assert "x" in NamedSeen(q, 1, Path(q, 1)) <==> "x" !in late;
  }

  // So the default server wins exactly in that case.
  lemma LostRuleDefault(race: bool, late: set<string>, steady: bool)
    ensures Winner(LostRuleQuery(race, late), steady, 2) <==> "x" in late
  {
    var q := LostRuleQuery(race, late);
    LostRulePath(race, late);
    LostRuleCommits(race, late);
    assert Holds(q, 2);
    assert Commits(q, 1) ==> DecidedBefore(q, 1, 2);
  }

  lemma LostRuleIsLate(race: bool)
    ensures var z, q := LostRuleSchedule(), LostRuleQuery(race, {"x"});
            && LateTags(q, z, Moment(2, 0), 1) == {"x"} == q.late(1)
            && AllAnswered(q, z, Moment(2, 2), 1)
  {
    LostRulePath(race, {"x"});
  }

  /** The walk stands at the second rule, or has armed it, having delivered nothing yet. */
  function LostRuleWalk(race: bool): Walk {
    Walk(if race then 2 else 1, NoOptions, None, map["x" := 0], map[], map[],
         [Future(Launch(0, Server, NoOptions), "x", false, false, false)],
         if race then [Armed(1, [0], None, false, NoOptions)] else [], None)
  }

  lemma LostRuleSent(race: bool)
    ensures var q, w := LostRuleQuery(race, {"x"}), LostRuleWalk(race);
            SentUpTo(q, w.index, w.futures) && NoRaceSent(q, w.futures)
  {
    var q, w := LostRuleQuery(race, {"x"}), LostRuleWalk(race);
    LostRulePath(race, {"x"});
    assert Path(q, 0) == Start(q);
    assert Sends(q, 0) && SentBy(q, 0) == w.futures[0].launch;
    assert HasSent(w.futures, SentBy(q, 0));
    assert SentRightly(q, w.index, w.futures[0]);
  }

  lemma LostRuleMirrors(race: bool)
    ensures Mirrors(LostRuleQuery(race, {"x"}), LostRuleWalk(race))
  {
    var q := LostRuleQuery(race, {"x"});
    LostRulePath(race, {"x"});
    assert race ==> Path(q, 2) == Advance(q, 1, Path(q, 1));
  }

  lemma LostRuleBooks(race: bool)
    ensures var q, z, w := LostRuleQuery(race, {"x"}), LostRuleSchedule(), LostRuleWalk(race);
            Books(q, z, Moment(2, 0), w) && Current(z, Moment(2, 0), w)
  {
    LostRuleSent(race);
    LostRuleMirrors(race);
  }

  lemma LostRuleIsArmed(race: bool)
    requires race
    ensures var q, z, w := LostRuleQuery(race, {"x"}), LostRuleSchedule(), LostRuleWalk(race);
            ArmedWell(q, z, Moment(2, 0), w, w.armed[0]) && Ready(z, Moment(2, 2), w.futures, w.armed[0])
  {
    LostRulePath(race, {"x"});
    var w := LostRuleWalk(race);
    assert w.armed[0].pending[0] == 0 && w.futures[0].launch.site == 0;
    assert Listed(w.armed[0].pending, w.futures, 0);
  }

  // In the walk's own terms: the rule has all it waits for, and does not match what was delivered.
  lemma LostRuleMisses(race: bool)
    ensures var q, z, w := LostRuleQuery(race, {"x"}), LostRuleSchedule(), LostRuleWalk(race);
            && Books(q, z, Moment(2, 0), w) && Current(z, Moment(2, 0), w)
            && (race ==> ArmedWell(q, z, Moment(2, 0), w, w.armed[0]) && Ready(z, Moment(2, 2), w.futures, w.armed[0]))
            && !q.rules[1].Match(None, w.responses, {})
            && Matches(LostRuleQuery(race, {}), 1, Path(LostRuleQuery(race, {}), 1))
  {
    LostRuleBooks(race);
    if race {
      LostRuleIsArmed(race);
    }
    LostRuleCommits(race, {});
  }

  /** If the answer comes after responses are delivered at the beginning of step 2 and
      before the rule is looked at, the rule has all it waits for and yet does not match;
      the default server wins, which otherwise no order of answers permits. The same if the
      rule is armed. */
  lemma LostRule(race: bool)
    ensures var z, q := LostRuleSchedule(), LostRuleQuery(race, {"x"});
            && WellFormed(q.rules) && Causal(z)
            && LateTags(q, z, Moment(2, 0), 1) == {"x"} == q.late(1) && AllAnswered(q, z, Moment(2, 2), 1)
            && Winner(q, false, 2) && !Winner(LostRuleQuery(race, {}), false, 2)
  {
    LostRuleIsLate(race);
    LostRuleDefault(race, {"x"}, false);
    LostRuleDefault(race, {}, false);
  }

  // ----- an answer in the middle of a sweep

  /** An armed rule that commits wins under schedules in which nothing answers in the middle
      of a sweep, iff no armed rule ahead of it that commits could do with the answers that
      rule needs. */
  lemma SweptInOrder(q: Query, z: Schedule, now: Moment, w: Walk, k: nat)
    requires w.index <= |q.rules| && Standing(q, z, now, w) && k < |w.armed|
    requires w.armed[k].index < w.index && Commits(q, w.armed[k].index)
    ensures Winner(q, true, w.armed[k].index) <==>
              forall l | 0 <= l < k && w.armed[l].index < w.index && Commits(q, w.armed[l].index) ::
                !(Bound(q, w.armed[l].index) <= MustAnswer(q, true, w.armed[k].index))
  {
    var j := w.armed[k].index;
    forall e | 0 <= e < j && Commits(q, e)
      ensures Races(q, e) && !DecidedBefore(q, e, j)
      ensures exists l | 0 <= l < k :: w.armed[l].index == e
    {
      var l := ArmedAhead(q, w, k, e);
      assert ArmedWell(q, z, now, w, w.armed[l]);
      assert IsArmed(w, e);
      ArmedIsUndecided(q, z, now, w, e, j);
    }
    assert forall l | 0 <= l < k :: w.armed[l].index < j;
  }

  // Ask `server` anonymously; then two race rules answer with that response.
  function OvertakenQuery(): Query {
    Query(
      [Rule([], false, "", false, Evaluate("server", "", false, Plain), (v: Views) => true),
       Rule([], true, "", true, Predefined(1), (v: Views) => true),
       Rule([], true, "", true, Predefined(2), (v: Views) => true)],
      map["server" := Server], Server, true, NoOptions, 0, 0,
      (site, transport, options) => Got(7),
      i => {})
  }

  lemma OvertakenPath()
    ensures var q := OvertakenQuery();
            && Path(q, 1) == Path(q, 2) == Reading(NoOptions, Some(Launch(0, Server, NoOptions)), map[])
            && !Commits(q, 0) && !Races(q, 0) && Bound(q, 0) == {}
  {
    var q := OvertakenQuery();
    assert Path(q, 0) == Start(q);
    assert Path(q, 1) == Advance(q, 0, Path(q, 0));
    assert Path(q, 2) == Advance(q, 1, Path(q, 1));
  }

  lemma OvertakenRules()
    ensures var q := OvertakenQuery();
            && Races(q, 1) && Races(q, 2) && Commits(q, 1) && Commits(q, 2)
            && Bound(q, 1) == Bound(q, 2) == {0}
            && !DecidedBefore(q, 1, 2)
  {
    OvertakenPath();
  }

  lemma OvertakenMust(steady: bool)
    ensures MustAnswer(OvertakenQuery(), steady, 2) == if steady then {0} else {}
  {
    OvertakenPath();
    OvertakenRules();
  }

  lemma OvertakenWins(steady: bool)
    ensures Winner(OvertakenQuery(), steady, 2) <==> !steady
  {
    var q := OvertakenQuery();
    OvertakenPath();
    OvertakenRules();
    OvertakenMust(steady);
    assert Bound(q, 1) <= MustAnswer(q, steady, 2) <==> steady;
  }

  lemma OvertakenWellFormed()
    ensures WellFormed(OvertakenQuery().rules)
  {
    var rules := OvertakenQuery().rules;
    assert |rules| == 3 && forall i | 0 <= i < |rules| :: rules[i].tags == [] && (rules[i].action.Evaluate? ==> rules[i].action.tag == "");
  }

  /** Two race rules need the same answer. If it comes after a sweep has looked at the first
      and before it looks at the second, the second wins, which it does not otherwise. */
  lemma Overtaken()
    ensures var q := OvertakenQuery();
            && WellFormed(q.rules) && Winner(q, false, 2) && !Winner(q, true, 2)
  {
    OvertakenWellFormed();
    OvertakenWins(true);
    OvertakenWins(false);
  }
}
