/** Each way the walk moves keeps its state valid, and a rule that ends the walk is a winner. */
module WalkSteps {
  import opened Wrappers
  import opened DnsRules
  import opened SequentialReading
  import opened WalkState

  // ----- armed rules outlive every step

  // Futures are only ever added, and what each one sent never changes.
  predicate Extends(f: seq<Future>, g: seq<Future>) {
    |f| <= |g| && forall a | 0 <= a < |f| :: g[a].launch == f[a].launch
  }

  lemma ArmedWellCarries(q: Query, z: Schedule, now: Moment, w: Walk, w': Walk, a: Armed)
    requires w.index <= w'.index <= |q.rules| && ArmedWell(q, z, now, w, a)
    requires Extends(w.futures, w'.futures)
    requires forall i | w.index <= i < w'.index :: !Holds(q, i)
    ensures ArmedWell(q, z, now, w', a)
  {
    forall x | x in Bound(q, a.index) && !Answered(z, now, x)
      ensures Awaits(w'.futures, a, x)
    {
      assert Awaits(w.futures, a, x);
    }
  }

  lemma ReadyMeansAnswered(q: Query, z: Schedule, now: Moment, w: Walk, a: Armed)
    requires w.index <= |q.rules| && ArmedWell(q, z, now, w, a) && Ready(z, now, w.futures, a)
    ensures AllAnswered(q, z, now, a.index)
  {
    forall x | x in Bound(q, a.index)
      ensures Answered(z, now, x)
    {
      assert Answered(z, now, x) || Awaits(w.futures, a, x);
    }
  }

  // ----- moving past an ordinary rule

  lemma PassKeepsStanding(q: Query, z: Schedule, now: Moment, w: Walk, w': Walk)
    requires w.index < |q.rules| && Standing(q, z, now, w)
    requires !Races(q, w.index) && !Commits(q, w.index) && AllAnswered(q, z, now, w.index)
    requires w.armed != [] ==> !Holds(q, w.index)
    requires w'.index == w.index + 1 && w'.armed == w.armed && Extends(w.futures, w'.futures)
    ensures Standing(q, z, now, w')
  {
    forall k | 0 <= k < |w'.armed|
      ensures ArmedWell(q, z, now, w', w'.armed[k])
    {
      ArmedWellCarries(q, z, now, w, w', w.armed[k]);
    }
    assert forall i :: IsArmed(w, i) <==> IsArmed(w', i);
  }

  lemma PassKeepsSent(q: Query, p: nat, futures: seq<Future>)
    requires p < |q.rules| && SentUpTo(q, p, futures) && !Sends(q, p)
    ensures SentUpTo(q, p + 1, futures)
  {
    assert forall a | 0 <= a < |futures| :: SentRightly(q, p, futures[a]) ==> SentRightly(q, p + 1, futures[a]);
  }

  // A rule that changes nothing but, possibly, the query options.
  lemma PassKeepsBooks(q: Query, z: Schedule, now: Moment, w: Walk, options: Options)
    requires Books(q, z, now, w) && w.index < |q.rules| && !Sends(q, w.index)
    requires Advance(q, w.index, Path(q, w.index)) == Path(q, w.index).(options := options)
    ensures Books(q, z, now, w.(index := w.index + 1, options := options))
  {
    PassKeepsSent(q, w.index, w.futures);
  }

  // An anonymous evaluate whose server is missing forgets the previous anonymous response.
  lemma ForgetKeepsBooks(q: Query, z: Schedule, now: Moment, w: Walk)
    requires Books(q, z, now, w) && w.index < |q.rules| && !Sends(q, w.index)
    requires Advance(q, w.index, Path(q, w.index)) == Path(q, w.index).(anonymous := None)
    ensures Books(q, z, now, w.(index := w.index + 1, anonymous := None))
  {
    PassKeepsSent(q, w.index, w.futures);
  }

  // The current rule has no effect but, possibly, on the options.
  predicate Passable(q: Query, z: Schedule, now: Moment, w: Walk, options: Options) {
    && w.index < |q.rules|
    && !Races(q, w.index)
    && !Holds(q, w.index)
    && !Sends(q, w.index)
    && AllAnswered(q, z, now, w.index)
    && Advance(q, w.index, Path(q, w.index)) == Path(q, w.index).(options := options)
  }

  lemma PassKeepsSound(q: Query, z: Schedule, now: Moment, w: Walk, options: Options)
    requires Passable(q, z, now, w, options)
    ensures Sound(q, z, now, w) ==> Sound(q, z, now, w.(index := w.index + 1, options := options))
  {
    if Sound(q, z, now, w) {
      PassKeepsBooks(q, z, now, w, options);
      PassKeepsStanding(q, z, now, w, w.(index := w.index + 1, options := options));
    }
  }

  // The current rule is an evaluate whose server is missing.
  function Missed(w: Walk, tag: string): Walk {
    w.(index := w.index + 1, anonymous := if tag == "" then None else w.anonymous)
  }

  lemma MissKeepsSound(q: Query, z: Schedule, now: Moment, w: Walk, tag: string)
    requires w.index < |q.rules| && !Races(q, w.index) && !Holds(q, w.index) && AllAnswered(q, z, now, w.index)
    requires !Sends(q, w.index)
    requires var s := Path(q, w.index); Advance(q, w.index, s) == if tag == "" then s.(anonymous := None) else s
    ensures Sound(q, z, now, w) ==> Sound(q, z, now, Missed(w, tag))
  {
    if Sound(q, z, now, w) {
      if tag == "" {
        ForgetKeepsBooks(q, z, now, w);
      } else {
        PassKeepsBooks(q, z, now, w, w.options);
      }
      PassKeepsStanding(q, z, now, w, Missed(w, tag));
    }
  }

  function Sent(launch: Launch, tag: string, terminal: bool): Future {
    Future(launch, tag, terminal, false, false)
  }

  function Evaluated(w: Walk, launch: Launch, tag: string): Walk {
    var w' := w.(index := w.index + 1, futures := w.futures + [Sent(launch, tag, false)]);
    if tag == "" then w'.(anonymous := Some(|w.futures|)) else w'.(named := w.named[tag := |w.futures|])
  }

  lemma EvaluateKeepsMirror(q: Query, w: Walk, launch: Launch, tag: string)
    requires Mirrors(q, w) && w.index < |q.rules|
    requires var s := Path(q, w.index);
             Advance(q, w.index, s) == if tag == "" then s.(anonymous := Some(launch)) else s.(named := s.named[tag := launch])
    ensures Mirrors(q, Evaluated(w, launch, tag))
  {
    var w', s, s' := Evaluated(w, launch, tag), Path(q, w.index), Path(q, w.index + 1);
    assert w'.futures[|w.futures|] == Sent(launch, tag, false);
    assert forall a | 0 <= a < |w.futures| :: w'.futures[a] == w.futures[a];
    forall t | t in w'.named
      ensures w'.named[t] < |w'.futures| && w'.futures[w'.named[t]].launch == s'.named[t] && w'.futures[w'.named[t]].tag == t
    {
      if t == tag && tag != "" {
        assert w'.named[t] == |w.futures|;
      } else {
        assert t in w.named && w'.named[t] == w.named[t];
      }
    }
  }

  // The current rule has sent nothing.
  predicate Unused(w: Walk) {
    forall a | 0 <= a < |w.futures| :: w.futures[a].launch.site < w.index
  }

  // Only a route rule sends early.
  lemma EvaluateIsUnused(q: Query, w: Walk)
    requires w.index < |q.rules| && q.rules[w.index].action.Evaluate? && Ledger(w) && TerminalWell(q, w)
    ensures Unused(w)
  {
  }

  lemma EvaluateKeepsLedger(w: Walk, launch: Launch, tag: string)
    requires Ledger(w) && Unused(w) && launch.site == w.index
    requires tag != "" ==> tag !in w.named
    ensures Ledger(Evaluated(w, launch, tag))
  {
  }

  lemma EvaluateKeepsDelivered(q: Query, z: Schedule, now: Moment, w: Walk, launch: Launch, tag: string)
    requires Delivered(q, z, now, w)
    requires tag != "" ==> tag !in w.named
    ensures Delivered(q, z, now, Evaluated(w, launch, tag))
  {
  }

  lemma SendKeepsSent(q: Query, p: nat, futures: seq<Future>, launch: Launch, tag: string)
    requires p < |q.rules| && SentUpTo(q, p, futures) && Sends(q, p) && launch == SentBy(q, p)
    ensures SentUpTo(q, p + 1, futures + [Sent(launch, tag, false)])
  {
    var futures' := futures + [Sent(launch, tag, false)];
    assert forall a | 0 <= a < |futures| :: futures'[a] == futures[a] && (SentRightly(q, p, futures[a]) ==> SentRightly(q, p + 1, futures[a]));
    assert futures'[|futures|].launch == launch;
    forall i | 0 <= i < p && Sends(q, i)
      ensures HasSent(futures', SentBy(q, i))
    {
      var a :| 0 <= a < |futures| && futures[a].launch == SentBy(q, i);
      assert futures'[a].launch == SentBy(q, i);
    }
  }

  lemma SendKeepsNoRace(q: Query, futures: seq<Future>, launch: Launch, tag: string)
    requires NoRaceSent(q, futures) && !Races(q, launch.site)
    ensures NoRaceSent(q, futures + [Sent(launch, tag, false)])
  {
  }

  lemma EvaluateKeepsBooks(q: Query, z: Schedule, now: Moment, w: Walk, launch: Launch, tag: string)
    requires Books(q, z, now, w) && w.index < |q.rules| && Unused(w) && Sends(q, w.index) && launch == SentBy(q, w.index)
    requires tag != "" ==> tag !in w.named
    requires var s := Path(q, w.index);
             Advance(q, w.index, s) == if tag == "" then s.(anonymous := Some(launch)) else s.(named := s.named[tag := launch])
    ensures Books(q, z, now, Evaluated(w, launch, tag))
  {
    EvaluateKeepsMirror(q, w, launch, tag);
    SendKeepsNoRace(q, w.futures, launch, tag);
    SendKeepsSent(q, w.index, w.futures, launch, tag);
    EvaluateKeepsLedger(w, launch, tag);
    EvaluateKeepsDelivered(q, z, now, w, launch, tag);
  }

  lemma EvaluateKeepsStanding(q: Query, z: Schedule, now: Moment, w: Walk, launch: Launch, tag: string)
    requires w.index < |q.rules| && Standing(q, z, now, w) && !Races(q, w.index) && AllAnswered(q, z, now, w.index)
    requires q.rules[w.index].action.Evaluate? && (w.armed != [] ==> q.rules[w.index].action.speculative)
    ensures Standing(q, z, now, Evaluated(w, launch, tag))
  {
    PassKeepsStanding(q, z, now, w, Evaluated(w, launch, tag));
  }

  lemma GrowthKeepsTerminal(q: Query, w: Walk, w': Walk)
    requires w.index <= |q.rules| && w'.index <= |q.rules| && w'.terminal == w.terminal && Extends(w.futures, w'.futures)
    ensures TerminalWell(q, w) ==> TerminalWell(q, w')
  {
  }

  // A matching evaluate rule that may send leaves a sound state.
  lemma EvaluateKeepsSound(q: Query, z: Schedule, now: Moment, w: Walk, launch: Launch)
    requires WellFormed(q.rules) && w.index < |q.rules| && !Races(q, w.index)
    requires q.rules[w.index].action.Evaluate? && q.rules[w.index].action.server in q.servers
    requires launch == Launch(w.index, q.servers[q.rules[w.index].action.server], Apply(w.options, q.rules[w.index].action.route))
    requires w.armed != [] ==> q.rules[w.index].action.speculative
    ensures Sound(q, z, now, w) && Matches(q, w.index, Path(q, w.index)) && AllAnswered(q, z, now, w.index) ==>
              Sound(q, z, now, Evaluated(w, launch, q.rules[w.index].action.tag))
  {
    if Sound(q, z, now, w) && Matches(q, w.index, Path(q, w.index)) && AllAnswered(q, z, now, w.index) {
      var tag := q.rules[w.index].action.tag;
      if tag != "" {
        TagIsFresh(q, w.index);
      }
      EvaluateIsUnused(q, w);
      EvaluateKeepsBooks(q, z, now, w, launch, tag);
      EvaluateKeepsStanding(q, z, now, w, launch, tag);
      GrowthKeepsTerminal(q, w, Evaluated(w, launch, tag));
    }
  }

  // ----- a speculative terminal query

  // A matching rule i would wait for race rules.
  predicate Delays(q: Query, i: nat, options: Options)
    requires i < |q.rules|
  {
    match q.rules[i].action
    case SetOptions(_) => false
    case Evaluate(server, _, speculative, _) => server in q.servers && !speculative
    case Route(server, _, route) => q.ResolveRoute(server, route, options).Some?
    case _ => true
  }

  function Speculated(w: Walk, launch: Launch): Walk {
    w.(futures := w.futures + [Sent(launch, "", true)], terminal := Some(|w.futures|))
  }

  lemma SpeculateKeepsBooks(q: Query, z: Schedule, now: Moment, w: Walk, launch: Launch)
    requires Books(q, z, now, w) && w.terminal.None? && w.index < |q.rules| && RouteSends(q, w.index, launch) && !Races(q, w.index)
    ensures Books(q, z, now, Speculated(w, launch))
  {
    SpeculateKeepsSent(q, w.index, w.futures, launch);
    SpeculateKeepsTables(q, z, now, w, launch);
  }

  lemma SpeculateKeepsTables(q: Query, z: Schedule, now: Moment, w: Walk, launch: Launch)
    requires Mirrors(q, w) && Ledger(w) && Delivered(q, z, now, w) && w.terminal.None? && launch.site == w.index
    ensures var w' := Speculated(w, launch); Mirrors(q, w') && Ledger(w') && Delivered(q, z, now, w')
  {
  }

  lemma SpeculateKeepsSent(q: Query, p: nat, futures: seq<Future>, launch: Launch)
    requires p < |q.rules| && SentUpTo(q, p, futures) && RouteSends(q, p, launch)
    ensures SentUpTo(q, p, futures + [Sent(launch, "", true)])
  {
    var futures' := futures + [Sent(launch, "", true)];
    assert forall a | 0 <= a < |futures| :: futures'[a] == futures[a];
    forall i | 0 <= i < p && Sends(q, i)
      ensures HasSent(futures', SentBy(q, i))
    {
      var a :| 0 <= a < |futures| && futures[a].launch == SentBy(q, i);
      assert futures'[a].launch == SentBy(q, i);
    }
  }

  lemma SpeculateKeepsStanding(q: Query, z: Schedule, now: Moment, w: Walk, launch: Launch)
    requires w.index <= |q.rules| && Standing(q, z, now, w)
    ensures Standing(q, z, now, Speculated(w, launch))
  {
    var w' := Speculated(w, launch);
    forall k | 0 <= k < |w'.armed|
      ensures ArmedWell(q, z, now, w', w'.armed[k])
    {
      ArmedWellCarries(q, z, now, w, w', w.armed[k]);
    }
    assert forall i :: IsArmed(w, i) <==> IsArmed(w', i);
  }

  lemma SpeculateKeepsSound(q: Query, z: Schedule, now: Moment, w: Walk, launch: Launch)
    requires w.index < |q.rules| && w.terminal.None? && !Races(q, w.index) && RouteSends(q, w.index, launch)
    ensures Sound(q, z, now, w) ==> Sound(q, z, now, Speculated(w, launch))
  {
    if Sound(q, z, now, w) {
      SpeculateKeepsBooks(q, z, now, w, launch);
      SpeculateKeepsStanding(q, z, now, w, launch);
    }
  }

  // ----- arming and disarming race rules

  function Arm(w: Walk, a: Armed): Walk {
    w.(index := w.index + 1, armed := w.armed + [a])
  }

  lemma ArmKeepsStanding(q: Query, z: Schedule, now: Moment, w: Walk, a: Armed)
    requires w.index < |q.rules| && Standing(q, z, now, w) && Races(q, w.index) && a.index == w.index
    requires ArmedWell(q, z, now, w.(index := w.index + 1), a)
    ensures Standing(q, z, now, Arm(w, a))
  {
    var w' := Arm(w, a);
    forall k | 0 <= k < |w'.armed|
      ensures ArmedWell(q, z, now, w', w'.armed[k]) && w'.armed[k].index <= w.index
    {
      if k < |w.armed| {
        assert ArmedWell(q, z, now, w, w.armed[k]);
        ArmedWellCarries(q, z, now, w, w', w.armed[k]);
      } else {
        ArmedWellCarries(q, z, now, w.(index := w.index + 1), w', a);
      }
    }
    ArmAdds(w, a);
  }

  lemma ArmAdds(w: Walk, a: Armed)
    requires a.index == w.index
    ensures forall i :: IsArmed(Arm(w, a), i) <==> IsArmed(w, i) || i == w.index
  {
    var w' := Arm(w, a);
    assert w'.armed[|w.armed|].index == w.index;
    forall i | IsArmed(w, i)
      ensures IsArmed(w', i)
    {
      var k :| 0 <= k < |w.armed| && w.armed[k].index == i;
      assert w'.armed[k].index == i;
    }
  }

  lemma ArmedNow(q: Query, z: Schedule, now: Moment, w: Walk, pending: seq<nat>)
    requires Mirrors(q, w) && Races(q, w.index)
    requires forall p | 0 <= p < |pending| ::
               pending[p] < |w.futures| && w.futures[pending[p]].launch.site in Bound(q, w.index)
    requires forall x | x in Bound(q, w.index) :: Answered(z, now, x) || Listed(pending, w.futures, x)
    ensures ArmedWell(q, z, now, w.(index := w.index + 1), ArmedHere(q, w, pending))
  {
  }

  // The current race rule, armed on what it still waits for.
  function ArmedHere(q: Query, w: Walk, pending: seq<nat>): Armed
    requires w.index < |q.rules|
  {
    var rule := q.rules[w.index];
    Armed(w.index, pending, if rule.anonymous then w.anonymous else None, rule.anonymous, w.options)
  }

  lemma ArmKeepsBooks(q: Query, z: Schedule, now: Moment, w: Walk, a: Armed)
    requires Books(q, z, now, w) && Races(q, w.index)
    ensures Books(q, z, now, Arm(w, a))
    ensures Current(z, now, w) ==> Current(z, now, Arm(w, a))
  {
    PassKeepsBooks(q, z, now, w, w.options);
  }

  lemma ArmHereKeepsSound(q: Query, z: Schedule, now: Moment, w: Walk, pending: seq<nat>)
    requires Races(q, w.index)
    requires forall p | 0 <= p < |pending| ::
               pending[p] < |w.futures| && w.futures[pending[p]].launch.site in Bound(q, w.index)
    requires forall x | x in Bound(q, w.index) :: Answered(z, now, x) || Listed(pending, w.futures, x)
    ensures Sound(q, z, now, w) ==>
              var w' := Arm(w, ArmedHere(q, w, pending));
              && Books(q, z, now, w') && Standing(q, z, now, w') && TerminalWell(q, w')
              && IdleOnlyWhenNew(w') && (pending != [] ==> NoneIdle(w'))
    ensures Sound(q, z, now, w) && Current(z, now, w) ==> Current(z, now, Arm(w, ArmedHere(q, w, pending)))
  {
    if Sound(q, z, now, w) {
      ArmedNow(q, z, now, w, pending);
      ArmKeepsStanding(q, z, now, w, ArmedHere(q, w, pending));
      ArmKeepsBooks(q, z, now, w, ArmedHere(q, w, pending));
      ArmKeepsIdle(w, ArmedHere(q, w, pending));
    }
  }

  lemma ArmKeepsIdle(w: Walk, a: Armed)
    requires NoneIdle(w) && a.index == w.index
    ensures IdleOnlyWhenNew(Arm(w, a)) && (a.pending != [] ==> NoneIdle(Arm(w, a)))
  {
  }

  function Disarm(w: Walk, k: nat): Walk
    requires k < |w.armed|
  {
    w.(armed := w.armed[..k] + w.armed[k + 1..])
  }

  // The books do not mention armed rules.
  lemma BooksIgnoreArmed(q: Query, z: Schedule, now: Moment, w: Walk, armed: seq<Armed>)
    ensures Books(q, z, now, w) ==> Books(q, z, now, w.(armed := armed))
    ensures Current(z, now, w) ==> Current(z, now, w.(armed := armed))
  {
  }

  lemma DisarmRemoves(w: Walk, k: nat)
    requires k < |w.armed| && ArmedInOrder(w)
    ensures ArmedInOrder(Disarm(w, k))
    ensures forall i :: IsArmed(Disarm(w, k), i) <==> IsArmed(w, i) && i != w.armed[k].index
  {
    var w' := Disarm(w, k);
    assert forall l | 0 <= l < |w'.armed| :: w'.armed[l] == w.armed[if l < k then l else l + 1];
    forall i | IsArmed(w, i) && i != w.armed[k].index
      ensures IsArmed(w', i)
    {
      var l :| 0 <= l < |w.armed| && w.armed[l].index == i;
      assert w'.armed[if l < k then l else l - 1].index == i;
    }
  }

  lemma DisarmKeepsStanding(q: Query, z: Schedule, now: Moment, w: Walk, k: nat)
    requires w.index <= |q.rules| && Standing(q, z, now, w) && k < |w.armed|
    requires Ready(z, now, w.futures, w.armed[k]) && w.armed[k].index <= |q.rules| && !Commits(q, w.armed[k].index)
    ensures Standing(q, z, now, Disarm(w, k))
  {
    var w' := Disarm(w, k);
    forall l | 0 <= l < |w'.armed|
      ensures ArmedWell(q, z, now, w', w'.armed[l])
    {
      assert w'.armed[l] == w.armed[if l < k then l else l + 1];
      ArmedWellCarries(q, z, now, w, w', w'.armed[l]);
    }
    DisarmRemoves(w, k);
    ReadyMeansAnswered(q, z, now, w, w.armed[k]);
  }

  // ----- settling one future

  function SettleOne(q: Query, w: Walk, a: nat): Walk
    requires a < |w.futures|
  {
    var f := w.futures[a];
    var w' := w.(futures := w.futures[a := f.(settled := true)]);
    if f.tag == "" then w'
    else w'.(responses := w.responses[f.tag := Seen(q, f.launch)],
             transports := w.transports[f.tag := f.launch.transport])
  }

  // Two lists of futures differ at most in what has been settled.
  predicate SameFutures(f: seq<Future>, g: seq<Future>) {
    |f| == |g| && forall a | 0 <= a < |f| :: g[a].(settled := true) == f[a].(settled := true)
  }

  lemma SameFuturesFacts(f: seq<Future>, g: seq<Future>)
    requires SameFutures(f, g)
    ensures Extends(f, g)
    ensures forall a | 0 <= a < |f| :: g[a].tag == f[a].tag && g[a].cancelled == f[a].cancelled && g[a].terminal == f[a].terminal
  {
    forall a | 0 <= a < |f|
      ensures g[a].launch == f[a].launch && g[a].tag == f[a].tag && g[a].cancelled == f[a].cancelled && g[a].terminal == f[a].terminal
    {
      assert g[a].(settled := true) == f[a].(settled := true);
    }
  }

  lemma SettledResponse(q: Query, z: Schedule, now: Moment, w: Walk, a: nat, t: string)
    requires Ledger(w) && Delivered(q, z, now, w) && a < |w.futures|
    requires Answered(z, now, w.futures[a].launch.site) && t in SettleOne(q, w, a).responses
    ensures var w' := SettleOne(q, w, a);
            && t in w'.transports && t in w'.named && w'.named[t] < |w'.futures|
            && Answered(z, now, w'.futures[w'.named[t]].launch.site)
            && w'.responses[t] == Seen(q, w'.futures[w'.named[t]].launch)
            && w'.transports[t] == w'.futures[w'.named[t]].launch.transport
  {
    if t == w.futures[a].tag && t != "" {
      assert w.named[t] == a;
    } else {
      assert t in w.responses;
    }
  }

  lemma SettleKeepsDelivered(q: Query, z: Schedule, now: Moment, w: Walk, a: nat)
    requires Ledger(w) && Delivered(q, z, now, w) && a < |w.futures|
    requires Answered(z, now, w.futures[a].launch.site)
    ensures Delivered(q, z, now, SettleOne(q, w, a))
  {
    var w' := SettleOne(q, w, a);
    forall b | 0 <= b < |w'.futures| && w'.futures[b].settled
      ensures Answered(z, now, w'.futures[b].launch.site) && (w'.futures[b].tag != "" ==> w'.futures[b].tag in w'.responses)
    {
      assert b != a ==> w'.futures[b] == w.futures[b];
    }
    forall t | t in w'.responses
      ensures && t in w'.transports && t in w'.named && w'.named[t] < |w'.futures|
              && Answered(z, now, w'.futures[w'.named[t]].launch.site)
              && w'.responses[t] == Seen(q, w'.futures[w'.named[t]].launch)
              && w'.transports[t] == w'.futures[w'.named[t]].launch.transport
    {
      SettledResponse(q, z, now, w, a, t);
    }
  }

  lemma SameFuturesKeepBooks(q: Query, w: Walk, w': Walk)
    requires Mirrors(q, w) && Ledger(w) && SameFutures(w.futures, w'.futures)
    requires w' == w.(futures := w'.futures, responses := w'.responses, transports := w'.transports)
    ensures Mirrors(q, w') && Ledger(w')
    ensures NoRaceSent(q, w.futures) ==> NoRaceSent(q, w'.futures)
    ensures SentUpTo(q, w.index, w.futures) ==> SentUpTo(q, w'.index, w'.futures)
  {
    SameFuturesFacts(w.futures, w'.futures);
    if SentUpTo(q, w.index, w.futures) {
      SameFuturesKeepSent(q, w.index, w.futures, w'.futures);
    }
  }

  predicate SameSends(f: seq<Future>, g: seq<Future>) {
    |f| == |g| && forall a | 0 <= a < |f| :: g[a].launch == f[a].launch && g[a].terminal == f[a].terminal
  }

  lemma SameFuturesKeepSent(q: Query, p: nat, f: seq<Future>, g: seq<Future>)
    requires p <= |q.rules| && SentUpTo(q, p, f) && SameSends(f, g)
    ensures SentUpTo(q, p, g)
  {
    forall a | 0 <= a < |g|
      ensures SentRightly(q, p, g[a])
    {
      assert SentRightly(q, p, f[a]);
    }
    forall i | 0 <= i < p && Sends(q, i)
      ensures HasSent(g, SentBy(q, i))
    {
      var a :| 0 <= a < |f| && f[a].launch == SentBy(q, i);
      assert g[a].launch == SentBy(q, i);
    }
  }

  predicate SettledSoFar(z: Schedule, now: Moment, w: Walk, n: nat)
    requires n <= |w.futures|
  {
    forall a | 0 <= a < n && Answered(z, now, w.futures[a].launch.site) :: w.futures[a].settled
  }

  // `w` is `before` with some answered futures delivered.
  predicate DeliveredFrom(before: Walk, w: Walk) {
    && w == before.(futures := w.futures, responses := w.responses, transports := w.transports)
    && SameFutures(before.futures, w.futures)
  }

  lemma SettleKeepsBooks(q: Query, z: Schedule, now: Moment, w: Walk, a: nat)
    requires Books(q, z, now, w) && a < |w.futures|
    requires Answered(z, now, w.futures[a].launch.site)
    ensures Books(q, z, now, SettleOne(q, w, a))
  {
    SettleKeepsDelivered(q, z, now, w, a);
    SettleIsSame(q, w, a);
    SameFuturesKeepBooks(q, w, SettleOne(q, w, a));
  }

  lemma SettleIsSame(q: Query, w: Walk, a: nat)
    requires a < |w.futures|
    ensures SameFutures(w.futures, SettleOne(q, w, a).futures)
  {
  }

  lemma SettleProgress(q: Query, z: Schedule, now: Moment, before: Walk, w: Walk, a: nat)
    requires a < |w.futures| && DeliveredFrom(before, w) && SettledSoFar(z, now, w, a)
    ensures DeliveredFrom(before, SettleOne(q, w, a)) && SettledSoFar(z, now, SettleOne(q, w, a), a + 1)
  {
  }

  lemma SettledKeepsStanding(q: Query, z: Schedule, now: Moment, w: Walk, w': Walk)
    requires DeliveredFrom(w, w') && w.index <= |q.rules|
    ensures Standing(q, z, now, w) ==> Standing(q, z, now, w')
  {
    SameFuturesFacts(w.futures, w'.futures);
    if Standing(q, z, now, w) {
      forall k | 0 <= k < |w'.armed|
        ensures ArmedWell(q, z, now, w', w'.armed[k])
      {
        ArmedWellCarries(q, z, now, w, w', w.armed[k]);
      }
      assert forall i :: IsArmed(w, i) <==> IsArmed(w', i);
    }
  }

  lemma SettledKeepsSound(q: Query, z: Schedule, now: Moment, w: Walk, w': Walk)
    requires DeliveredFrom(w, w') && w.index <= |q.rules|
    ensures Sound(q, z, now, w) && Books(q, z, now, w') ==> Sound(q, z, now, w')
  {
    SameFuturesFacts(w.futures, w'.futures);
    SettledKeepsStanding(q, z, now, w, w');
  }

  // ----- who may end the walk

  lemma ArmedIsUndecided(q: Query, z: Schedule, now: Moment, w: Walk, i: nat, j: nat)
    requires w.index <= |q.rules| && Standing(q, z, now, w) && i < j < w.index
    ensures IsArmed(w, i) ==> !DecidedBefore(q, i, j)
  {
    if IsArmed(w, i) {
      var k :| 0 <= k < |w.armed| && w.armed[k].index == i;
      assert ArmedWell(q, z, now, w, w.armed[k]);
    }
  }

  lemma MustAnswerIsAnswered(q: Query, z: Schedule, now: Moment, w: Walk, steady: bool, j: nat)
    requires w.index <= |q.rules| && Standing(q, z, now, w) && j < w.index
    requires steady ==> AllAnswered(q, z, now, j)
    ensures forall x | x in MustAnswer(q, steady, j) :: Answered(z, now, x)
  {
    forall i, x | 0 <= i < j && DecidedBefore(q, i, j) && x in Bound(q, i)
      ensures Answered(z, now, x)
    {
      ArmedIsUndecided(q, z, now, w, i, j);
    }
  }

  // An armed rule that is not ready still waits for an exchange it binds.
  lemma UnreadyWaits(q: Query, z: Schedule, since: Moment, now: Moment, w: Walk, a: Armed)
    requires w.index <= |q.rules| && ArmedWell(q, z, now, w, a) && !Ready(z, since, w.futures, a)
    ensures exists x :: x in Bound(q, a.index) && !Answered(z, since, x)
  {
    var p :| 0 <= p < |a.pending| && !(a.pending[p] < |w.futures| && Answered(z, since, w.futures[a.pending[p]].launch.site));
    assert w.futures[a.pending[p]].launch.site in Bound(q, a.index);
  }

  /** The first armed rule found ready and committing is a winner. `before` and `since` are
      from when rules armed ahead of it were still not ready; if they still are not, it
      wins with its own answers in. */
  lemma SweptRuleWins(q: Query, z: Schedule, since: Moment, before: Walk, w: Walk, steady: bool, k: nat)
    requires w.index == before.index <= |q.rules| && Standing(q, z, since, before) && NothingMissed(q, w)
    requires k < |w.armed| && w.armed[k].index < w.index && Commits(q, w.armed[k].index)
    requires ArmedInOrder(w) && forall l | 0 <= l < k :: w.armed[l] in before.armed && !Ready(z, since, before.futures, w.armed[l])
    requires steady ==> AllAnswered(q, z, since, w.armed[k].index)
    ensures Winner(q, steady, w.armed[k].index)
  {
    var j := w.armed[k].index;
    MustAnswerIsAnswered(q, z, since, before, steady, j);
    forall e | 0 <= e < j && Commits(q, e)
      ensures Races(q, e) && !DecidedBefore(q, e, j) && !(Bound(q, e) <= MustAnswer(q, steady, j))
    {
      var l := ArmedAhead(q, w, k, e);
      PassedOverWaits(q, z, since, before, w.armed[l], j);
    }
  }

  lemma ArmedAhead(q: Query, w: Walk, k: nat, e: nat) returns (l: nat)
    requires w.index <= |q.rules| && ArmedInOrder(w) && NothingMissed(q, w)
    requires k < |w.armed| && e < w.armed[k].index < w.index && Commits(q, e)
    ensures l < k && w.armed[l].index == e
  {
    assert IsArmed(w, e);
    l :| 0 <= l < |w.armed| && w.armed[l].index == e;
  }

  // An armed rule that was not ready is undecided and waits for an exchange that had not answered.
  lemma PassedOverWaits(q: Query, z: Schedule, since: Moment, before: Walk, a: Armed, j: nat)
    requires before.index <= |q.rules| && Standing(q, z, since, before) && a in before.armed && a.index < j < before.index
    requires !Ready(z, since, before.futures, a)
    ensures Races(q, a.index) && !DecidedBefore(q, a.index, j)
    ensures exists x :: x in Bound(q, a.index) && !Answered(z, since, x)
  {
    var m :| 0 <= m < |before.armed| && before.armed[m] == a;
    assert ArmedWell(q, z, since, before, before.armed[m]);
    assert IsArmed(before, a.index);
    ArmedIsUndecided(q, z, since, before, a.index, j);
    UnreadyWaits(q, z, since, since, before, a);
  }

  // An ordinary rule that commits with nothing armed is a winner.
  lemma HeldRuleWins(q: Query, z: Schedule, now: Moment, w: Walk)
    requires w.index <= |q.rules| && Standing(q, z, now, w) && w.armed == [] && Commits(q, w.index)
    ensures Winner(q, true, w.index) && Winner(q, false, w.index)
  {
  }
}
