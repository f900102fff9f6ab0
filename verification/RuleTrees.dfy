/** DNS rules as configured: trees of conditions with one action at the root, and the
    rule sets they refer to. A tree compiles to the rule the walk runs. */
module RuleTrees {
  import opened Wrappers
  import opened DnsRules

  // `strategy` tells whether the action sets a domain strategy of its own.
  datatype ActionOptions = ActionOptions(race: bool, strategy: bool, action: Action)

  /** `matchResponse` is None when off, Some("") for the anonymous response, and
      otherwise the tag. `accepts` stands for every matching item of the rule: it is
      given the bound response; without one, items on response fields still look at the
      anonymous response, and all others only at the query. */
  datatype RuleTree =
    | Leaf(
        matchResponse: Option<string>,
        responseFields: bool, // response_rcode, response_answer, response_ns, response_extra
        addressFields: bool,  // ip_cidr, ip_is_private, ip_accept_any
        queryFields: bool,    // ip_version, query_type
        ruleSets: seq<string>,
        matchSource: bool,
        acceptEmpty: bool,
        invert: bool,
        accepts: Option<Message> -> bool,
        options: ActionOptions)
    | Logical(conjunction: bool, invert: bool, rules: seq<RuleTree>, options: ActionOptions)

  datatype Metadata = Metadata(queryType: bool, ipCIDR: bool, nonIPCIDR: bool)

  type RuleSets = map<string, Metadata>

  // ----- what a tree binds

  function LeafTags(t: RuleTree): seq<string>
    requires t.Leaf?
  {
    if t.matchResponse.Some? && t.matchResponse.value != "" then [t.matchResponse.value] else []
  }

  function Tags(t: RuleTree): seq<string>
    decreases t, 1
  {
    match t
    case Leaf(_, _, _, _, _, _, _, _, _, _) => LeafTags(t)
    case Logical(_, _, rules, _) => TagsOf(rules)
  }

  function TagsOf(ts: seq<RuleTree>): seq<string>
    decreases ts, 0
  {
    if ts == [] then [] else Tags(ts[0]) + TagsOf(ts[1..])
  }

  predicate Anonymous(t: RuleTree)
    decreases t, 1
  {
    match t
    case Leaf(response, _, _, _, _, _, _, _, _, _) => response == Some("")
    case Logical(_, _, rules, _) => AnyAnonymous(rules)
  }

  predicate AnyAnonymous(ts: seq<RuleTree>)
    decreases ts, 0
  {
    ts != [] && (Anonymous(ts[0]) || AnyAnonymous(ts[1..]))
  }

  // ----- the nodes of a tree

  function Nodes(t: RuleTree): seq<RuleTree>
    decreases t, 1
  {
    match t
    case Leaf(_, _, _, _, _, _, _, _, _, _) => [t]
    case Logical(_, _, rules, _) => [t] + NodesOf(rules)
  }

  function NodesOf(ts: seq<RuleTree>): seq<RuleTree>
    decreases ts, 0
  {
    if ts == [] then [] else Nodes(ts[0]) + NodesOf(ts[1..])
  }

  lemma {:induction false} ListNodesAre(ts: seq<RuleTree>, n: RuleTree)
    ensures n in NodesOf(ts) <==> exists s | s in ts :: n in Nodes(s)
  {
    if ts != [] {
      ListNodesAre(ts[1..], n);
      assert n in NodesOf(ts) <==> n in Nodes(ts[0]) || n in NodesOf(ts[1..]);
      if s :| s in ts && n in Nodes(s) {
        assert s == ts[0] || s in ts[1..];
      }
    }
  }

  // The nodes are the tree and the nodes of its sub rules.
  lemma NodesAre(t: RuleTree, n: RuleTree)
    ensures n in Nodes(t) <==> n == t || (t.Logical? && exists s | s in t.rules :: n in Nodes(s))
  {
    if t.Logical? {
      ListNodesAre(t.rules, n);
    }
  }

  // The responses a tree binds are those its leaves name.
  lemma {:induction false} BindingsAreNamed(t: RuleTree, tag: string)
    ensures tag in Tags(t) <==> tag != "" && exists n | n in Nodes(t) :: n.Leaf? && n.matchResponse == Some(tag)
    ensures Anonymous(t) <==> exists n | n in Nodes(t) :: n.Leaf? && n.matchResponse == Some("")
    decreases t, 1
  {
    if t.Logical? {
      ListBindingsAreNamed(t.rules, tag);
    } else {
      assert t in Nodes(t);
    }
  }

  lemma {:induction false} ListBindingsAreNamed(ts: seq<RuleTree>, tag: string)
    ensures tag in TagsOf(ts) <==> tag != "" && exists n | n in NodesOf(ts) :: n.Leaf? && n.matchResponse == Some(tag)
    ensures AnyAnonymous(ts) <==> exists n | n in NodesOf(ts) :: n.Leaf? && n.matchResponse == Some("")
    decreases ts, 0
  {
    if ts != [] {
      BindingsAreNamed(ts[0], tag);
      ListBindingsAreNamed(ts[1..], tag);
      assert forall n :: n in NodesOf(ts) <==> n in Nodes(ts[0]) || n in NodesOf(ts[1..]);
    }
  }

  // ----- matching

  predicate Match(t: RuleTree, v: Views)
    decreases t, 1
  {
    match t
    case Leaf(None, responseFields, _, _, _, _, _, _, accepts, _) => accepts(if responseFields then v.anonymous else None)
    case Leaf(Some(tag), _, _, _, _, _, _, invert, accepts, _) =>
      var response := if tag == "" then v.anonymous else if tag in v.named then Some(v.named[tag]) else None;
      if response.None? then invert else accepts(response)
    case Logical(conjunction, invert, rules, _) =>
      (if conjunction then MatchAll(rules, v) else MatchAny(rules, v)) != invert
  }

  predicate MatchAll(ts: seq<RuleTree>, v: Views)
    decreases ts, 0
  {
    ts == [] || (Match(ts[0], v) && MatchAll(ts[1..], v))
  }

  predicate MatchAny(ts: seq<RuleTree>, v: Views)
    decreases ts, 0
  {
    ts != [] && (Match(ts[0], v) || MatchAny(ts[1..], v))
  }

  lemma {:induction false} MatchListMeans(ts: seq<RuleTree>, v: Views)
    ensures MatchAll(ts, v) <==> forall s | s in ts :: Match(s, v)
    ensures MatchAny(ts, v) <==> exists s | s in ts :: Match(s, v)
  {
    if ts != [] {
      MatchListMeans(ts[1..], v);
      assert MatchAll(ts, v) <==> Match(ts[0], v) && MatchAll(ts[1..], v);
      assert MatchAny(ts, v) <==> Match(ts[0], v) || MatchAny(ts[1..], v);
      assert (forall s | s in ts :: Match(s, v)) <==> Match(ts[0], v) && forall s | s in ts[1..] :: Match(s, v);
      if s :| s in ts && Match(s, v) {
        assert s == ts[0] || s in ts[1..];
      }
    }
  }

  /** A conjunction matches when all its sub rules do, any other logical rule when one
      does; a rule on a response is not matched without it, and otherwise asks exactly that
      response. Inverting turns a logical match, and a missing response, around. */
  lemma MatchMeans(t: RuleTree, v: Views)
    ensures t.Logical? && t.conjunction ==> (Match(t, v) <==> (forall s | s in t.rules :: Match(s, v)) != t.invert)
    ensures t.Logical? && !t.conjunction ==> (Match(t, v) <==> (exists s | s in t.rules :: Match(s, v)) != t.invert)
    ensures t.Leaf? && t.matchResponse == Some("") ==>
              (Match(t, v) <==> if v.anonymous.None? then t.invert else t.accepts(v.anonymous))
    ensures t.Leaf? && t.matchResponse.Some? && t.matchResponse.value != "" ==>
              (Match(t, v) <==> if t.matchResponse.value in v.named then t.accepts(Some(v.named[t.matchResponse.value])) else t.invert)
    ensures t.Leaf? && t.matchResponse.None? ==> (Match(t, v) <==> t.accepts(if t.responseFields then v.anonymous else None))
  {
    if t.Logical? {
      MatchListMeans(t.rules, v);
    }
  }

  // Two views agree on what a rule with these bindings may look at.
  predicate Agree(tags: seq<string>, anonymous: bool, v: Views, v': Views) {
    && (anonymous ==> v.anonymous == v'.anonymous)
    && (forall t | t in tags :: (t in v.named <==> t in v'.named) && (t in v.named ==> v.named[t] == v'.named[t]))
  }

  // Items on response fields are only in rules that bind a response.
  ghost predicate FieldsBound(nodes: seq<RuleTree>) {
    forall n | n in nodes :: n.Leaf? && n.responseFields ==> n.matchResponse.Some?
  }

  // Then matching reads only the responses the tree binds.
  lemma {:induction false} MatchReadsOnlyBound(t: RuleTree, v: Views, v': Views)
    requires Agree(Tags(t), Anonymous(t), v, v') && FieldsBound(Nodes(t))
    ensures Match(t, v) == Match(t, v')
    decreases t, 1
  {
    match t
    case Leaf(response, _, _, _, _, _, _, _, _, _) =>
      assert response.Some? && response.value != "" ==> response.value in Tags(t);
      assert t in Nodes(t);
    case Logical(_, _, rules, _) =>
      assert forall n | n in NodesOf(rules) :: n in Nodes(t);
      MatchListReadsOnlyBound(rules, v, v');
  }

  // And otherwise it need not: a rule that wants any response at all, without binding one.
  lemma UnboundFieldIsRead()
    ensures var options := ActionOptions(false, false, Respond);
            var t := Leaf(None, true, false, false, [], false, false, false, (m: Option<Message>) => m.Some?, options);
            && Agree(Tags(t), Anonymous(t), Views(None, map[]), Views(Some(7), map[]))
            && Match(t, Views(None, map[])) != Match(t, Views(Some(7), map[]))
  {
  }

  lemma {:induction false} MatchListReadsOnlyBound(ts: seq<RuleTree>, v: Views, v': Views)
    requires Agree(TagsOf(ts), AnyAnonymous(ts), v, v') && FieldsBound(NodesOf(ts))
    ensures MatchAll(ts, v) == MatchAll(ts, v') && MatchAny(ts, v) == MatchAny(ts, v')
    decreases ts, 0
  {
    if ts != [] {
      assert forall tag | tag in Tags(ts[0]) || tag in TagsOf(ts[1..]) :: tag in TagsOf(ts);
      assert forall n | n in Nodes(ts[0]) || n in NodesOf(ts[1..]) :: n in NodesOf(ts);
      MatchReadsOnlyBound(ts[0], v, v');
      MatchListReadsOnlyBound(ts[1..], v, v');
    }
  }

  // ----- compiling

  // The first occurrence of each element, in order.
  function Unique(s: seq<string>): (r: seq<string>)
    ensures forall x :: x in r <==> x in s
    ensures forall i, j | 0 <= i < j < |r| :: r[i] != r[j]
  {
    if s == [] then []
    else
      var rest := Unique(s[..|s| - 1]);
      assert s == s[..|s| - 1] + [s[|s| - 1]];
      if s[|s| - 1] in s[..|s| - 1] then rest else rest + [s[|s| - 1]]
  }

  function Compile(t: RuleTree): Rule {
    Rule(
      if t.Leaf? then LeafTags(t) else Unique(Tags(t)),
      Anonymous(t),
      if t.Leaf? && t.matchResponse.Some? then t.matchResponse.value else "",
      t.options.race,
      t.options.action,
      v => Match(t, v))
  }

  // A compiled rule keeps the action, and binds and answers with what the tree names.
  lemma CompileKeeps(t: RuleTree)
    ensures Compile(t).race == t.options.race && Compile(t).action == t.options.action
    ensures Compile(t).respondTag == if t.Leaf? && t.matchResponse.Some? then t.matchResponse.value else ""
    ensures Compile(t).anonymous <==> exists n | n in Nodes(t) :: n.Leaf? && n.matchResponse == Some("")
    ensures forall tag :: tag in Compile(t).tags <==> tag != "" && exists n | n in Nodes(t) :: n.Leaf? && n.matchResponse == Some(tag)
  {
    BindingsAreNamed(t, "");
    forall tag
      ensures tag in Compile(t).tags <==> tag != "" && exists n | n in Nodes(t) :: n.Leaf? && n.matchResponse == Some(tag)
    {
      BindingsAreNamed(t, tag);
    }
  }

  // What the walk computes from its restricted view is the tree's match on everything it shows.
  lemma CompiledMatch(t: RuleTree, anonymous: Option<Message>, responses: map<string, Option<Message>>, late: set<string>)
    requires FieldsBound(Nodes(t))
    ensures Compile(t).Match(anonymous, responses, late) ==
              Match(t, Views(anonymous, map x | x in responses && x !in late && responses[x].Some? :: responses[x].value))
  {
    var rule := Compile(t);
    MatchReadsOnlyBound(t,
      Views(if rule.anonymous then anonymous else None, rule.BoundResponses(responses, late)),
      Views(anonymous, map x | x in responses && x !in late && responses[x].Some? :: responses[x].value));
  }

  function CompileAll(ts: seq<RuleTree>): (rules: seq<Rule>)
    ensures |rules| == |ts|
  {
    seq(|ts|, i requires 0 <= i < |ts| => Compile(ts[i]))
  }
}
