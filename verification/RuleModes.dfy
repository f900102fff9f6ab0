/** Legacy or not: which mode a rule list runs in, and why a running router stays in a
    mode its rules allow while rule sets are updated under it. */
module RuleModes {
  import opened Wrappers
  import opened DnsRules
  import opened RuleTrees
  import opened RuleValidation

  datatype Flags = Flags(disabled: bool, needed: bool, fromStrategy: bool)
  {
    function Merge(other: Flags): Flags {
      Flags(disabled || other.disabled, needed || other.needed, fromStrategy || other.fromStrategy)
    }
  }

  // ----- what one node asks for

  predicate ActionDisables(o: ActionOptions) {
    o.race ||
    match o.action
    case Route(_, speculative, route) => route.disableOptimisticCache || speculative
    case Evaluate(_, _, speculative, route) => route.disableOptimisticCache || speculative
    case SetOptions(route) => route.disableOptimisticCache
    case _ => false
  }

  predicate ActionHasStrategy(o: ActionOptions) {
    (o.action.Route? || o.action.Evaluate? || o.action.SetOptions?) && o.strategy
  }

  predicate LeafDisables(t: RuleTree)
    requires t.Leaf?
  {
    t.matchResponse.Some? || t.responseFields || t.options.action.Evaluate? || t.options.action.Respond? || t.queryFields
  }

  predicate LeafNeedsAddressFilter(t: RuleTree)
    requires t.Leaf?
  {
    t.acceptEmpty || (t.matchResponse.None? && t.addressFields)
  }

  // ----- what a tree asks for, as the router computes it

  function LeafFlags(sets: RuleSets, t: RuleTree): Result<Flags, Refusal>
    requires t.Leaf?
  {
    var strategy := ActionHasStrategy(t.options);
    SetFlags(sets, t.matchSource, t.ruleSets,
             Flags(LeafDisables(t) || ActionDisables(t.options), LeafNeedsAddressFilter(t) || strategy, strategy))
  }

  function SetFlags(sets: RuleSets, matchSource: bool, tags: seq<string>, flags: Flags): Result<Flags, Refusal> {
    if tags == [] then Ok(flags)
    else if tags[0] !in sets then Err(SetNotFound(tags[0]))
    else
      var metadata := sets[tags[0]];
      SetFlags(sets, matchSource, tags[1..],
               flags.(disabled := flags.disabled || metadata.queryType,
                      needed := flags.needed || (!matchSource && metadata.ipCIDR)))
  }

  function TreeFlags(sets: RuleSets, t: RuleTree): Result<Flags, Refusal>
    decreases t, 1
  {
    match t
    case Leaf(_, _, _, _, _, _, _, _, _, _) => LeafFlags(sets, t)
    case Logical(_, _, rules, options) =>
      var strategy := ActionHasStrategy(options);
      var own := Flags(options.action.Evaluate? || options.action.Respond? || ActionDisables(options), strategy, strategy);
      ListFlags(sets, rules, own)
  }

  function ListFlags(sets: RuleSets, ts: seq<RuleTree>, flags: Flags): Result<Flags, Refusal>
    decreases ts, 0
  {
    if ts == [] then Ok(flags)
    else
      match TreeFlags(sets, ts[0])
      case Err(e) => Err(e)
      case Ok(first) => ListFlags(sets, ts[1..], flags.Merge(first))
  }

  const NoFlags := Flags(false, false, false)

  // The mode a rule list runs in, with the flags it was derived from.
  function ResolveMode(sets: RuleSets, ts: seq<RuleTree>): Result<(bool, Flags), Refusal> {
    match ListFlags(sets, ts, NoFlags)
    case Err(e) => Err(e)
    case Ok(flags) =>
      if flags.disabled && flags.fromStrategy then Err(StrategyConflict)
      else Ok((!flags.disabled && flags.needed, flags))
  }

  // ----- the same, read off the nodes

  predicate NodeDisables(sets: RuleSets, n: RuleTree) {
    || n.options.race
    || n.options.action.Evaluate?
    || n.options.action.Respond?
    || (n.options.action.Route? && (n.options.action.speculative || n.options.action.route.disableOptimisticCache))
    || (n.options.action.SetOptions? && n.options.action.route.disableOptimisticCache)
    || (n.Leaf? && (n.matchResponse.Some? || n.responseFields || n.queryFields))
    || (n.Leaf? && exists tag | tag in n.ruleSets :: tag in sets && sets[tag].queryType)
  }

  // Setting a strategy takes an action that has options.
  predicate NodeHasStrategy(n: RuleTree) {
    n.options.strategy && !n.options.action.Respond? && !n.options.action.Reject? && !n.options.action.Predefined?
  }

  predicate NodeNeeds(sets: RuleSets, n: RuleTree) {
    || NodeHasStrategy(n)
    || (n.Leaf? && n.acceptEmpty)
    || (n.Leaf? && n.addressFields && n.matchResponse.None?)
    || (n.Leaf? && !n.matchSource && exists tag | tag in n.ruleSets :: tag in sets && sets[tag].ipCIDR)
  }

  predicate NodeKnown(sets: RuleSets, n: RuleTree) {
    n.Leaf? ==> forall tag | tag in n.ruleSets :: tag in sets
  }

  predicate AnyDisables(sets: RuleSets, nodes: seq<RuleTree>) {
    exists i | 0 <= i < |nodes| :: NodeDisables(sets, nodes[i])
  }

  predicate AnyNeeds(sets: RuleSets, nodes: seq<RuleTree>) {
    exists i | 0 <= i < |nodes| :: NodeNeeds(sets, nodes[i])
  }

  predicate AnyStrategy(nodes: seq<RuleTree>) {
    exists i | 0 <= i < |nodes| :: NodeHasStrategy(nodes[i])
  }

  predicate AllKnown(sets: RuleSets, nodes: seq<RuleTree>) {
    forall i | 0 <= i < |nodes| :: NodeKnown(sets, nodes[i])
  }

  // The flags are exactly what some node asks for, on top of the flags already held.
  predicate FlagsOf(sets: RuleSets, nodes: seq<RuleTree>, before: Flags, r: Result<Flags, Refusal>) {
    && (r.Ok? <==> AllKnown(sets, nodes))
    && (r.Ok? ==>
          && r.value.disabled == (before.disabled || AnyDisables(sets, nodes))
          && r.value.needed == (before.needed || AnyNeeds(sets, nodes))
          && r.value.fromStrategy == (before.fromStrategy || AnyStrategy(nodes)))
  }

  lemma {:induction false} SetFlagsSpec(sets: RuleSets, matchSource: bool, tags: seq<string>, flags: Flags)
    ensures var r := SetFlags(sets, matchSource, tags, flags);
            && (r.Ok? <==> forall tag | tag in tags :: tag in sets)
            && (r.Ok? ==>
                  && r.value.fromStrategy == flags.fromStrategy
                  && r.value.disabled == (flags.disabled || exists tag | tag in tags :: tag in sets && sets[tag].queryType)
                  && r.value.needed == (flags.needed || (!matchSource && exists tag | tag in tags :: tag in sets && sets[tag].ipCIDR)))
  {
    if tags != [] {
      assert forall tag :: tag in tags <==> tag == tags[0] || tag in tags[1..];
      if tags[0] in sets {
        var metadata := sets[tags[0]];
        SetFlagsSpec(sets, matchSource, tags[1..],
          flags.(disabled := flags.disabled || metadata.queryType,
                 needed := flags.needed || (!matchSource && metadata.ipCIDR)));
      }
    }
  }

  lemma SingleNode(sets: RuleSets, t: RuleTree)
    ensures AnyDisables(sets, [t]) == NodeDisables(sets, t)
    ensures AnyNeeds(sets, [t]) == NodeNeeds(sets, t)
    ensures AnyStrategy([t]) == NodeHasStrategy(t)
    ensures AllKnown(sets, [t]) == NodeKnown(sets, t)
  {
    assert [t][0] == t;
  }

  lemma JoinNodes(sets: RuleSets, a: seq<RuleTree>, b: seq<RuleTree>)
    ensures AnyDisables(sets, a + b) == (AnyDisables(sets, a) || AnyDisables(sets, b))
    ensures AnyNeeds(sets, a + b) == (AnyNeeds(sets, a) || AnyNeeds(sets, b))
    ensures AnyStrategy(a + b) == (AnyStrategy(a) || AnyStrategy(b))
    ensures AllKnown(sets, a + b) == (AllKnown(sets, a) && AllKnown(sets, b))
  {
    var c := a + b;
    assert forall i | 0 <= i < |a| :: a[i] == c[i];
    assert forall i | 0 <= i < |b| :: b[i] == c[|a| + i];
    assert forall i | |a| <= i < |c| :: c[i] == b[i - |a|];
  }

  lemma {:induction false} TreeFlagsSpec(sets: RuleSets, t: RuleTree)
    ensures FlagsOf(sets, Nodes(t), NoFlags, TreeFlags(sets, t))
    decreases t, 1
  {
    SingleNode(sets, t);
    match t
    case Leaf(_, _, _, _, _, _, _, _, _, _) =>
      var strategy := ActionHasStrategy(t.options);
      SetFlagsSpec(sets, t.matchSource, t.ruleSets,
        Flags(LeafDisables(t) || ActionDisables(t.options), LeafNeedsAddressFilter(t) || strategy, strategy));
    case Logical(_, _, rules, options) =>
      var strategy := ActionHasStrategy(options);
      ListFlagsSpec(sets, rules, Flags(options.action.Evaluate? || options.action.Respond? || ActionDisables(options), strategy, strategy));
      JoinNodes(sets, [t], NodesOf(rules));
  }

  lemma {:induction false} ListFlagsSpec(sets: RuleSets, ts: seq<RuleTree>, flags: Flags)
    ensures FlagsOf(sets, NodesOf(ts), flags, ListFlags(sets, ts, flags))
    decreases ts, 0
  {
    if ts != [] {
      TreeFlagsSpec(sets, ts[0]);
      JoinNodes(sets, Nodes(ts[0]), NodesOf(ts[1..]));
      match TreeFlags(sets, ts[0])
      case Err(_) =>
      case Ok(first) => ListFlagsSpec(sets, ts[1..], flags.Merge(first));
    }
  }

  /** The mode, read off the nodes: it resolves iff every rule set is known and no
      strategy meets a node that disables legacy mode; it is legacy iff some node needs
      it and none disables it. */
  lemma ModeSpec(sets: RuleSets, ts: seq<RuleTree>)
    ensures var nodes, mode := NodesOf(ts), ResolveMode(sets, ts);
            && (mode.Ok? <==> AllKnown(sets, nodes) && !(AnyDisables(sets, nodes) && AnyStrategy(nodes)))
            && (mode.Ok? ==>
                  && mode.value.1.disabled == AnyDisables(sets, nodes)
                  && mode.value.0 == (AnyNeeds(sets, nodes) && !AnyDisables(sets, nodes)))
  {
    ListFlagsSpec(sets, ts, NoFlags);
  }

  // ----- a running router

  /** The router may run in this mode under these rule sets: in legacy mode no node
      disables it; otherwise the mode still resolves to non-legacy and the list passes
      validation. */
  predicate RunsWell(sets: RuleSets, ts: seq<RuleTree>, legacy: bool) {
    && ResolveMode(sets, ts).Ok?
    && (if legacy then !AnyDisables(sets, NodesOf(ts)) else !ResolveMode(sets, ts).value.0 && Acceptable(sets, ts))
  }

  class Router {
    const rules: seq<RuleTree>
    var ruleSets: RuleSets
    var legacyMode: bool
    var started: bool
    var closing: bool

    constructor (rules: seq<RuleTree>, ruleSets: RuleSets)
      ensures this.rules == rules && this.ruleSets == ruleSets && !started && !closing && Valid()
    {
      this.rules, this.ruleSets := rules, ruleSets;
      legacyMode, started, closing := false, false, false;
    }

    ghost predicate Valid()
      reads this
    {
      started && !closing ==> RunsWell(ruleSets, rules, legacyMode)
    }

    // Resolve the mode and, outside legacy mode, validate; `buildable` stands for what else building rules checks.
    method Start(buildable: bool) returns (r: Result<(), Refusal>)
      requires Valid()
      modifies this`legacyMode, this`started
      ensures Valid()
      ensures started ==> old(started) || (r.Ok? && RunsWell(ruleSets, rules, legacyMode))
      ensures r.Ok? && !closing ==> started && StartedIn(ruleSets, rules, legacyMode)
      ensures r.Err? || closing ==> started == old(started) && legacyMode == old(legacyMode)
      ensures r.Ok? <==>
                buildable && ResolveMode(ruleSets, rules).Ok? && (ResolveMode(ruleSets, rules).value.0 || Acceptable(ruleSets, rules))
    {
      ModeSpec(ruleSets, rules);
      var mode := ResolveMode(ruleSets, rules);
      if mode.Err? {
        return Err(mode.error);
      }
      if !mode.value.0 {
        var validation := Validate(ruleSets, rules);
        if validation.Err? {
          return Err(validation.error);
        }
      }
      if !buildable {
        return Err(RuleNotBuilt);
      }
      if !closing {
        legacyMode, started := mode.value.0, true;
      }
      return Ok(());
    }

    method Close()
      modifies this`closing
      ensures closing && Valid()
    {
      closing := true;
    }

    // Would the rules still run with this metadata in place?
    method ValidateUpdate(tag: string, metadata: Metadata) returns (r: Result<(), Refusal>)
      requires Valid()
      ensures started && !closing ==> (r.Ok? <==> Agrees(ruleSets[tag := metadata], rules, legacyMode))
      ensures started && !closing ==> (r.Ok? <==> RunsWell(ruleSets[tag := metadata], rules, legacyMode))
      ensures !started && !closing ==>
                (r.Ok? <==>
                   var mode := ResolveMode(ruleSets[tag := metadata], rules);
                   mode.Ok? && (mode.value.0 || Acceptable(ruleSets[tag := metadata], rules)))
      ensures closing ==> r.Ok?
    {
      if closing {
        return Ok(());
      }
      var sets := ruleSets[tag := metadata];
      ModeSpec(sets, rules);
      ModeSpec(ruleSets, rules);
      if |rules| == 0 {
        return Ok(());
      }
      var mode := ResolveMode(sets, rules);
      if mode.Err? {
        return Err(mode.error);
      }
      if !started {
        if !mode.value.0 {
          var validation := Validate(sets, rules);
          return if validation.Ok? then Ok(()) else Err(validation.error);
        }
        return Ok(());
      }
      if legacyMode {
        if !mode.value.0 && mode.value.1.disabled {
          var validation := Validate(sets, rules);
          return if validation.Err? then Err(validation.error) else Err(LegacyAddressFilter);
        }
        return Ok(());
      }
      if mode.value.0 {
        return Err(LegacyAddressFilter);
      }
      var validation := Validate(sets, rules);
      return if validation.Ok? then Ok(()) else Err(validation.error);
    }

    // A rule set takes new content only if the router agrees.
    method UpdateRuleSet(tag: string, metadata: Metadata) returns (r: Result<(), Refusal>)
      requires Valid()
      modifies this`ruleSets
      ensures Valid()
      ensures ruleSets == if r.Ok? then old(ruleSets)[tag := metadata] else old(ruleSets)
      ensures started && !closing ==> ruleSets == AfterUpdates(old(ruleSets), rules, legacyMode, [(tag, metadata)])
    {
      assert AfterUpdates(ruleSets, rules, legacyMode, [(tag, metadata)][..0]) == ruleSets;
      r := ValidateUpdate(tag, metadata);
      if r.Ok? {
        ruleSets := ruleSets[tag := metadata];
      }
    }
  }

  // ----- updates one after another

  /** What a running router decides about rule sets that are put to it: they have to
      resolve; a router in legacy mode refuses only a candidate that is not legacy because
      some rule disables it, any other router refuses a legacy candidate and one that
      does not pass validation. */
  predicate Agrees(sets: RuleSets, ts: seq<RuleTree>, legacy: bool) {
    ts == [] ||
    match ResolveMode(sets, ts)
    case Err(_) => false
    case Ok((candidate, flags)) =>
      if legacy then !(!candidate && flags.disabled) else !candidate && Acceptable(sets, ts)
  }

  // The router was started in this mode.
  predicate StartedIn(sets: RuleSets, ts: seq<RuleTree>, legacy: bool) {
    ResolveMode(sets, ts).Ok? && ResolveMode(sets, ts).value.0 == legacy && (!legacy ==> Acceptable(sets, ts))
  }

  // What the router agrees to is what its rules can run with.
  lemma AgreesRunsWell(sets: RuleSets, ts: seq<RuleTree>, legacy: bool)
    ensures Agrees(sets, ts, legacy) <==> RunsWell(sets, ts, legacy)
    ensures StartedIn(sets, ts, legacy) ==> RunsWell(sets, ts, legacy)
  {
    ModeSpec(sets, ts);
  }

  // Any run of updates, each taken up only if the router agrees to it.
  function AfterUpdates(sets: RuleSets, ts: seq<RuleTree>, legacy: bool, updates: seq<(string, Metadata)>): RuleSets {
    if updates == [] then sets
    else
      var earlier := AfterUpdates(sets, ts, legacy, updates[..|updates| - 1]);
      var (tag, metadata) := updates[|updates| - 1];
      if Agrees(earlier[tag := metadata], ts, legacy) then earlier[tag := metadata] else earlier
  }

  lemma {:induction false} UpdatesRunWell(sets: RuleSets, ts: seq<RuleTree>, legacy: bool, updates: seq<(string, Metadata)>)
    requires StartedIn(sets, ts, legacy)
    ensures RunsWell(AfterUpdates(sets, ts, legacy, updates), ts, legacy)
  {
    if updates == [] {
      AgreesRunsWell(sets, ts, legacy);
    } else {
      UpdatesRunWell(sets, ts, legacy, updates[..|updates| - 1]);
      var (tag, metadata) := updates[|updates| - 1];
      AgreesRunsWell(AfterUpdates(sets, ts, legacy, updates[..|updates| - 1])[tag := metadata], ts, legacy);
    }
  }

  /** However rule sets are updated one after another, starting from where the router was
      started: in legacy mode no node of any rule disables it; outside it some node does
      or none needs it, so that resolving afresh gives the same mode, and the list still
      passes validation. In either mode every rule set is known, and no rule sets a
      strategy where one disables legacy mode. */
  lemma {:induction false} UpdatesKeepMode(sets: RuleSets, ts: seq<RuleTree>, legacy: bool, updates: seq<(string, Metadata)>)
    requires StartedIn(sets, ts, legacy)
    ensures var now, nodes := AfterUpdates(sets, ts, legacy, updates), NodesOf(ts);
            && AllKnown(now, nodes) && !(AnyDisables(now, nodes) && AnyStrategy(nodes))
            && (legacy ==> forall i | 0 <= i < |nodes| :: !NodeDisables(now, nodes[i]))
            && (!legacy ==> (AnyDisables(now, nodes) || !AnyNeeds(now, nodes)) && Acceptable(now, ts))
            && (!legacy ==> ResolveMode(now, ts).Ok? && !ResolveMode(now, ts).value.0)
  {
    UpdatesRunWell(sets, ts, legacy, updates);
    ModeSpec(AfterUpdates(sets, ts, legacy, updates), ts);
  }

  // ----- updates that overlap

  // Every rule set is as in one of the states.
  predicate Blend(states: seq<RuleSets>, both: RuleSets) {
    && states != []
    && (forall k | 0 <= k < |states| :: states[k].Keys == both.Keys)
    && (forall tag | tag in both :: exists k | 0 <= k < |states| :: tag in states[k] && states[k][tag] == both[tag])
  }

  // What is wrong with a node in a blend is wrong with it in one of the states.
  lemma BlendRefusesNothingNew(states: seq<RuleSets>, both: RuleSets, n: RuleTree, e: Refusal)
    requires Blend(states, both) && NodeRefused(both, n, e)
    ensures exists k | 0 <= k < |states| :: NodeRefused(states[k], n, e)
  {
    if e == LegacyAddressFilter {
      var tag :| tag in n.ruleSets && OnlyAddresses(both, tag);
      var k :| 0 <= k < |states| && tag in states[k] && states[k][tag] == both[tag];
      assert OnlyAddresses(states[k], tag) && NodeRefused(states[k], n, e);
    } else {
      assert NodeRefused(states[0], n, e);
    }
  }

  lemma BlendKeepsUse(states: seq<RuleSets>, both: RuleSets, t: RuleTree)
    requires Blend(states, both) && forall k | 0 <= k < |states| :: TreeUse(states[k], t).Ok?
    ensures TreeUse(both, t) == TreeUse(states[0], t)
  {
    TreeUseSpec(both, t);
    if TreeUse(both, t).Err? {
      var n :| n in Nodes(t) && NodeRefused(both, n, TreeUse(both, t).error);
      BlendRefusesNothingNew(states, both, n, TreeUse(both, t).error);
      var k :| 0 <= k < |states| && NodeRefused(states[k], n, TreeUse(both, t).error);
      TreeUseSpec(states[k], t);
    }
    UseIsBinding(both, t);
    UseIsBinding(states[0], t);
  }

  lemma BlendIsAcceptable(states: seq<RuleSets>, both: RuleSets, ts: seq<RuleTree>)
    requires Blend(states, both) && forall k | 0 <= k < |states| :: Acceptable(states[k], ts)
    ensures Acceptable(both, ts)
  {
    forall i | 0 <= i < |ts|
      ensures AcceptableAt(both, ts, i)
    {
      forall k | 0 <= k < |states|
        ensures TreeUse(states[k], ts[i]).Ok?
      {
        assert AcceptableAt(states[k], ts, i);
      }
      assert AcceptableAt(states[0], ts, i);
      BlendKeepsUse(states, both, ts[i]);
    }
  }

  // What disables legacy mode in a blend disables it in one of the states, and so with what needs it.
  lemma BlendDisablesNothingNew(states: seq<RuleSets>, both: RuleSets, nodes: seq<RuleTree>)
    requires Blend(states, both)
    ensures AllKnown(both, nodes) <==> AllKnown(states[0], nodes)
    ensures AnyDisables(both, nodes) ==> exists k | 0 <= k < |states| :: AnyDisables(states[k], nodes)
  {
    if i :| 0 <= i < |nodes| && NodeDisables(both, nodes[i]) {
      if !NodeDisables(states[0], nodes[i]) {
        var tag :| tag in nodes[i].ruleSets && tag in both && both[tag].queryType;
        var k :| 0 <= k < |states| && tag in states[k] && states[k][tag] == both[tag];
        assert NodeDisables(states[k], nodes[i]);
      }
    }
  }

  lemma BlendNeedsNothingNew(states: seq<RuleSets>, both: RuleSets, nodes: seq<RuleTree>)
    requires Blend(states, both)
    ensures AnyNeeds(both, nodes) ==> exists k | 0 <= k < |states| :: AnyNeeds(states[k], nodes)
  {
    if i :| 0 <= i < |nodes| && NodeNeeds(both, nodes[i]) {
      if !NodeNeeds(states[0], nodes[i]) {
        var tag :| tag in nodes[i].ruleSets && tag in both && both[tag].ipCIDR;
        var k :| 0 <= k < |states| && tag in states[k] && states[k][tag] == both[tag];
        assert NodeNeeds(states[k], nodes[i]);
      }
    }
  }

  lemma BlendInLegacyMode(states: seq<RuleSets>, both: RuleSets, ts: seq<RuleTree>)
    requires Blend(states, both) && forall k | 0 <= k < |states| :: RunsWell(states[k], ts, true)
    ensures RunsWell(both, ts, true)
  {
    forall k | 0 <= k < |states|
      ensures !AnyDisables(states[k], NodesOf(ts)) && AllKnown(states[k], NodesOf(ts))
    {
      ModeSpec(states[k], ts);
    }
    ModeSpec(both, ts);
    BlendDisablesNothingNew(states, both, NodesOf(ts));
  }

  lemma BlendElsewhere(states: seq<RuleSets>, both: RuleSets, ts: seq<RuleTree>)
    requires Blend(states, both) && forall k | 0 <= k < |states| :: RunsWell(states[k], ts, false)
    ensures RunsWell(both, ts, false) <==> AnyDisables(both, NodesOf(ts)) || !AnyNeeds(both, NodesOf(ts))
  {
    forall k | 0 <= k < |states|
      ensures !(AnyDisables(states[k], NodesOf(ts)) && AnyStrategy(NodesOf(ts))) && AllKnown(states[k], NodesOf(ts))
      ensures Acceptable(states[k], ts)
    {
      ModeSpec(states[k], ts);
    }
    ModeSpec(both, ts);
    BlendDisablesNothingNew(states, both, NodesOf(ts));
    BlendIsAcceptable(states, both, ts);
  }

  /** Any number of updates, each checked against others' old content: taken up together
      they are harmless exactly if the router runs in legacy mode, or some node still
      disables it, or no node needs it. */
  lemma OverlapIsHarmless(states: seq<RuleSets>, both: RuleSets, ts: seq<RuleTree>, legacy: bool)
    requires Blend(states, both) && forall k | 0 <= k < |states| :: RunsWell(states[k], ts, legacy)
    ensures RunsWell(both, ts, legacy) <==> legacy || AnyDisables(both, NodesOf(ts)) || !AnyNeeds(both, NodesOf(ts))
  {
    if legacy {
      BlendInLegacyMode(states, both, ts);
    } else {
      BlendElsewhere(states, both, ts);
    }
  }

  lemma LostDisablerWasOf(a: RuleSets, both: RuleSets, nodes: seq<RuleTree>, tag: string)
    requires a.Keys == both.Keys && tag in a && forall t | t in a && t != tag :: both[t] == a[t]
    requires AnyDisables(a, nodes) && !AnyDisables(both, nodes)
    ensures a[tag].queryType && !both[tag].queryType
  {
    var i :| 0 <= i < |nodes| && NodeDisables(a, nodes[i]);
    assert !NodeDisables(both, nodes[i]);
    var t :| t in nodes[i].ruleSets && t in a && a[t].queryType;
    assert t == tag;
  }

  // A state that needs legacy mode ran outside it because of a set whose query types are gone.
  lemma ClashDropsThose(a: RuleSets, both: RuleSets, ts: seq<RuleTree>, tag: string)
    requires a.Keys == both.Keys && tag in a && forall t | t in a && t != tag :: both[t] == a[t]
    requires RunsWell(a, ts, false) && AnyNeeds(a, NodesOf(ts)) && !AnyDisables(both, NodesOf(ts))
    ensures a[tag].queryType && !both[tag].queryType
  {
    ModeSpec(a, ts);
    LostDisablerWasOf(a, both, NodesOf(ts), tag);
  }

  /** Said of two updates: they clash only if one of them drops the query types of its set,
      on which the other one, under which some node needs legacy mode, was accepted. */
  lemma ClashDropsQueryTypes(sets: RuleSets, ts: seq<RuleTree>, x: string, m: Metadata, y: string, n: Metadata)
    requires x in sets && y in sets && x != y
    requires RunsWell(sets[x := m], ts, false) && RunsWell(sets[y := n], ts, false)
    requires !RunsWell(sets[x := m][y := n], ts, false)
    ensures || (sets[y].queryType && !n.queryType && AnyNeeds(sets[x := m], NodesOf(ts)))
            || (sets[x].queryType && !m.queryType && AnyNeeds(sets[y := n], NodesOf(ts)))
  {
    var states, both := [sets[x := m], sets[y := n]], sets[x := m][y := n];
    TwoBlend(sets, x, m, y, n);
    OverlapIsHarmless(states, both, ts, false);
    BlendNeedsNothingNew(states, both, NodesOf(ts));
    if AnyNeeds(states[0], NodesOf(ts)) {
      ClashDropsThose(states[0], both, ts, y);
    } else {
      assert AnyNeeds(states[1], NodesOf(ts));
      ClashDropsThose(states[1], both, ts, x);
    }
  }

  lemma TwoBlend(sets: RuleSets, x: string, m: Metadata, y: string, n: Metadata)
    requires x in sets && y in sets && x != y
    ensures Blend([sets[x := m], sets[y := n]], sets[x := m][y := n])
  {
    var states, both := [sets[x := m], sets[y := n]], sets[x := m][y := n];
    forall tag | tag in both
      ensures exists k | 0 <= k < |states| :: tag in states[k] && states[k][tag] == both[tag]
    {
      assert tag != y ==> tag in states[0] && states[0][tag] == both[tag];
      assert tag == y ==> tag in states[1] && states[1][tag] == both[tag];
    }
  }

  const Idle := ActionOptions(false, false, Route("server", false, RouteOptions(false, false, None, 0, None, false)))

  function SetRule(tag: string): RuleTree {
    Leaf(None, false, false, false, [tag], false, false, false, (m: Option<Message>) => true, Idle)
  }

  /** Checking an update and taking it up are two steps. When two overlap, each can be
      fine against the other's old content and the two together not: here set "a" stops
      carrying query types just as set "b" starts carrying addresses. */
  lemma OverlappingUpdatesMayClash()
    ensures var ts := [SetRule("a"), SetRule("b")];
            var sets := map["a" := Metadata(true, false, true), "b" := Metadata(false, false, true)];
            var a, b := Metadata(false, false, true), Metadata(false, true, true);
            && RunsWell(sets, ts, false)
            && RunsWell(sets["a" := a], ts, false)
            && RunsWell(sets["b" := b], ts, false)
            && !RunsWell(sets["a" := a]["b" := b], ts, false)
  {
    var sets := map["a" := Metadata(true, false, true), "b" := Metadata(false, false, true)];
    var a, b := Metadata(false, false, true), Metadata(false, true, true);
    TwoSets(sets);
    TwoSets(sets["a" := a]);
    TwoSets(sets["b" := b]);
    TwoSets(sets["a" := a]["b" := b]);
  }

  lemma TwoSets(sets: RuleSets)
    requires "a" in sets && "b" in sets
    ensures var ts, mode := [SetRule("a"), SetRule("b")], ResolveMode(sets, [SetRule("a"), SetRule("b")]);
            var disabled, needed := sets["a"].queryType || sets["b"].queryType, sets["a"].ipCIDR || sets["b"].ipCIDR;
            && mode.Ok? && mode.value.0 == (!disabled && needed)
            && (sets["a"].nonIPCIDR && sets["b"].nonIPCIDR ==> Acceptable(sets, ts))
  {
    var ts := [SetRule("a"), SetRule("b")];
    OneSet(sets, "a");
    OneSet(sets, "b");
    assert ts[1..] == [SetRule("b")] && ts[1..][1..] == [];
    assert ts[0] == SetRule("a") && ts[1] == SetRule("b");
    var first, second := TreeFlags(sets, ts[0]).value, TreeFlags(sets, ts[1]).value;
    assert ListFlags(sets, ts[1..], NoFlags.Merge(first)) == Ok(NoFlags.Merge(first).Merge(second));
    assert ListFlags(sets, ts, NoFlags) == Ok(NoFlags.Merge(first).Merge(second));
    if sets["a"].nonIPCIDR && sets["b"].nonIPCIDR {
      assert AcceptableAt(sets, ts, 0) && AcceptableAt(sets, ts, 1);
    }
  }

  lemma OneSet(sets: RuleSets, tag: string)
    requires tag in sets
    ensures TreeFlags(sets, SetRule(tag)) == Ok(Flags(sets[tag].queryType, sets[tag].ipCIDR, false))
    ensures sets[tag].nonIPCIDR ==> TreeUse(sets, SetRule(tag)) == Ok(Use(false, []))
  {
    var t := SetRule(tag);
    assert t.ruleSets == [tag] && t.ruleSets[1..] == [];
    SetFlagsSpec(sets, false, t.ruleSets, NoFlags);
    assert TreeFlags(sets, t) == SetFlags(sets, false, t.ruleSets, NoFlags);
    assert RefusedSet(sets, t.ruleSets[1..]) == None;
    assert LeafTags(t) == [];
  }
}
