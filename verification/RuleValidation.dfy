/** Checking a rule list before it runs outside legacy mode. An accepted list compiles
    to rules whose tags are always set before they are read, and set only once. */
module RuleValidation {
  import opened Wrappers
  import opened DnsRules
  import opened SequentialReading
  import opened RuleTrees

  datatype Refusal =
    | SetNotFound(tag: string)
    | StrategyConflict
    | LegacyAddressFilter
    | FieldsNeedMatchResponse
    | AcceptEmptyUnsupported
    | RespondBindsTag
    | NoAnonymousEvaluate(index: nat)
    | UndefinedTag(index: nat, tag: string)
    | DuplicateTag(index: nat, tag: string)
    | RuleNotBuilt

  // ----- one tree

  // What a rule reads: the anonymous response, and responses by tag.
  datatype Use = Use(anonymous: bool, tags: seq<string>)

  function LeafUse(sets: RuleSets, t: RuleTree): Result<Use, Refusal>
    requires t.Leaf?
  {
    if (t.responseFields || t.addressFields) && t.matchResponse.None? then Err(FieldsNeedMatchResponse)
    else
      var refused := if t.matchResponse.None? then RefusedSet(sets, t.ruleSets) else None;
      if refused.Some? then Err(refused.value)
      else if t.acceptEmpty then Err(AcceptEmptyUnsupported)
      else
        Ok(Use(t.matchResponse == Some("") || (t.options.action.Respond? && LeafTags(t) == []), LeafTags(t)))
  }

  // A rule set that is missing, or that cannot match before there is a response.
  function RefusedSet(sets: RuleSets, tags: seq<string>): Option<Refusal> {
    if tags == [] then None
    else if tags[0] !in sets then Some(SetNotFound(tags[0]))
    else if sets[tags[0]].ipCIDR && !sets[tags[0]].nonIPCIDR then Some(LegacyAddressFilter)
    else RefusedSet(sets, tags[1..])
  }

  function TreeUse(sets: RuleSets, t: RuleTree): Result<Use, Refusal>
    decreases t, 1
  {
    match t
    case Leaf(_, _, _, _, _, _, _, _, _, _) => LeafUse(sets, t)
    case Logical(_, _, rules, options) =>
      match ListUse(sets, rules, Use(false, []))
      case Err(e) => Err(e)
      case Ok(use) =>
        if !options.action.Respond? then Ok(use)
        else if |use.tags| > 0 then Err(RespondBindsTag)
        else Ok(use.(anonymous := true))
  }

  function ListUse(sets: RuleSets, ts: seq<RuleTree>, use: Use): Result<Use, Refusal>
    decreases ts, 0
  {
    if ts == [] then Ok(use)
    else
      match TreeUse(sets, ts[0])
      case Err(e) => Err(e)
      case Ok(first) => ListUse(sets, ts[1..], Use(use.anonymous || first.anonymous, use.tags + first.tags))
  }

  // What can be wrong with a node of a tree.
  predicate NodeRefused(sets: RuleSets, n: RuleTree, e: Refusal) {
    match e
    case FieldsNeedMatchResponse => n.Leaf? && (n.responseFields || n.addressFields) && n.matchResponse.None?
    case SetNotFound(tag) => n.Leaf? && n.matchResponse.None? && tag in n.ruleSets && tag !in sets
    case LegacyAddressFilter => n.Leaf? && n.matchResponse.None? && exists tag | tag in n.ruleSets :: OnlyAddresses(sets, tag)
    case AcceptEmptyUnsupported => n.Leaf? && n.acceptEmpty
    case RespondBindsTag => n.Logical? && n.options.action.Respond? && TagsOf(n.rules) != []
    case _ => false
  }

  predicate OnlyAddresses(sets: RuleSets, tag: string) {
    tag in sets && sets[tag].ipCIDR && !sets[tag].nonIPCIDR
  }

  lemma {:induction false} RefusedSetSpec(sets: RuleSets, tags: seq<string>)
    ensures RefusedSet(sets, tags).None? <==> forall tag | tag in tags :: tag in sets && !OnlyAddresses(sets, tag)
    ensures match RefusedSet(sets, tags)
            case Some(SetNotFound(tag)) => tag in tags && tag !in sets
            case Some(e) => e == LegacyAddressFilter && exists tag | tag in tags :: OnlyAddresses(sets, tag)
            case None => true
  {
    if tags != [] {
      RefusedSetSpec(sets, tags[1..]);
      assert forall tag :: tag in tags <==> tag == tags[0] || tag in tags[1..];
      if RefusedSet(sets, tags) == Some(LegacyAddressFilter) {
        var tag :| (tag == tags[0] || tag in tags[1..]) && OnlyAddresses(sets, tag);
        assert tag in tags;
      }
    }
  }

  // The outcome for a list of nodes: refused for something that is wrong with one of them, else nothing is.
  ghost predicate Judged(sets: RuleSets, nodes: seq<RuleTree>, r: Result<Use, Refusal>) {
    if r.Err? then exists n | n in nodes :: NodeRefused(sets, n, r.error)
    else forall n, e | n in nodes :: !NodeRefused(sets, n, e)
  }

  lemma JudgedJoin(sets: RuleSets, a: seq<RuleTree>, b: seq<RuleTree>, r: Result<Use, Refusal>, r': Result<Use, Refusal>)
    requires Judged(sets, a, r)
    ensures r.Err? ==> Judged(sets, a + b, r)
    ensures r.Ok? && Judged(sets, b, r') ==> Judged(sets, a + b, r')
  {
    assert forall n :: n in a + b <==> n in a || n in b;
  }

  lemma LeafUseSpec(sets: RuleSets, t: RuleTree)
    requires t.Leaf?
    ensures Judged(sets, [t], LeafUse(sets, t))
  {
    assert t in [t];
    RefusedSetSpec(sets, t.ruleSets);
  }

  /** A tree is refused exactly if something is wrong with one of its nodes, and for
      something that is. */
  lemma {:induction false} TreeUseSpec(sets: RuleSets, t: RuleTree)
    ensures Judged(sets, Nodes(t), TreeUse(sets, t))
    decreases t, 1
  {
    match t
    case Leaf(_, _, _, _, _, _, _, _, _, _) =>
      LeafUseSpec(sets, t);
    case Logical(_, _, rules, options) =>
      var use := ListUse(sets, rules, Use(false, []));
      ListUseSpec(sets, rules, Use(false, []));
      ListUseIsBinding(sets, rules, Use(false, []));
      assert [] + TagsOf(rules) == TagsOf(rules);
      LogicalUseSpec(sets, t);
      if use.Ok? {
        JudgedJoin(sets, NodesOf(rules), [t], use, TreeUse(sets, t));
      }
      assert forall n :: n in [t] + NodesOf(rules) <==> n in NodesOf(rules) || n in [t];
  }

  // A tree that is not refused has items on response fields only where a response is bound.
  lemma AcceptedFieldsAreBound(sets: RuleSets, t: RuleTree)
    requires TreeUse(sets, t).Ok?
    ensures FieldsBound(Nodes(t))
  {
    TreeUseSpec(sets, t);
    forall n | n in Nodes(t)
      ensures n.Leaf? && n.responseFields ==> n.matchResponse.Some?
    {
      assert !NodeRefused(sets, n, FieldsNeedMatchResponse);
    }
  }

  /** So in a list that is accepted the walk's match of a rule is that of its tree, on all
      responses: the sub rules of a logical rule taken together, and each leaf on the
      response it names. */
  lemma AcceptedMatch(sets: RuleSets, t: RuleTree, anonymous: Option<Message>, responses: map<string, Option<Message>>, late: set<string>)
    requires TreeUse(sets, t).Ok?
    ensures Compile(t).Match(anonymous, responses, late) ==
              Match(t, Views(anonymous, map x | x in responses && x !in late && responses[x].Some? :: responses[x].value))
    ensures var v := Views(anonymous, map x | x in responses && x !in late && responses[x].Some? :: responses[x].value);
            match t
            case Logical(conjunction, invert, rules, _) =>
              Compile(t).Match(anonymous, responses, late) <==>
                (if conjunction then forall s | s in rules :: Match(s, v) else exists s | s in rules :: Match(s, v)) != invert
            case Leaf(None, _, _, _, _, _, _, _, accepts, _) => Compile(t).Match(anonymous, responses, late) <==> accepts(None)
            case Leaf(Some(tag), _, _, _, _, _, _, invert, accepts, _) =>
              var response := if tag == "" then anonymous else if tag in responses && tag !in late then responses[tag] else None;
              Compile(t).Match(anonymous, responses, late) <==> if response.Some? then accepts(response) else invert
    ensures Compile(t).race == t.options.race && Compile(t).action == t.options.action
    ensures Compile(t).respondTag == if t.Leaf? && t.matchResponse.Some? then t.matchResponse.value else ""
  {
    AcceptedFieldsAreBound(sets, t);
    CompiledMatch(t, anonymous, responses, late);
    MatchMeans(t, Views(anonymous, map x | x in responses && x !in late && responses[x].Some? :: responses[x].value));
    assert t in Nodes(t);
  }

  // The node itself, once its sub rules are fine.
  lemma LogicalUseSpec(sets: RuleSets, t: RuleTree)
    requires t.Logical? && (ListUse(sets, t.rules, Use(false, [])).Ok? ==> ListUse(sets, t.rules, Use(false, [])).value.tags == TagsOf(t.rules))
    ensures ListUse(sets, t.rules, Use(false, [])).Ok? ==> Judged(sets, [t], TreeUse(sets, t))
  {
    assert t in [t];
  }

  lemma {:induction false} ListUseSpec(sets: RuleSets, ts: seq<RuleTree>, use: Use)
    ensures Judged(sets, NodesOf(ts), ListUse(sets, ts, use))
    decreases ts, 0
  {
    if ts != [] {
      TreeUseSpec(sets, ts[0]);
      match TreeUse(sets, ts[0])
      case Err(e) =>
        JudgedJoin(sets, Nodes(ts[0]), NodesOf(ts[1..]), Err(e), Err(e));
      case Ok(first) =>
        var next := Use(use.anonymous || first.anonymous, use.tags + first.tags);
        ListUseSpec(sets, ts[1..], next);
        JudgedJoin(sets, Nodes(ts[0]), NodesOf(ts[1..]), Ok(first), ListUse(sets, ts[1..], next));
    }
  }

  // A `respond` action that answers with no tag answers with the anonymous response.
  predicate AnswersAnonymously(t: RuleTree)
    decreases t, 1
  {
    match t
    case Leaf(_, _, _, _, _, _, _, _, _, _) => t.options.action.Respond? && LeafTags(t) == []
    case Logical(_, _, rules, options) => options.action.Respond? || AnyAnswersAnonymously(rules)
  }

  predicate AnyAnswersAnonymously(ts: seq<RuleTree>)
    decreases ts, 0
  {
    ts != [] && (AnswersAnonymously(ts[0]) || AnyAnswersAnonymously(ts[1..]))
  }

  /** The validator sees exactly the tags the compiled rule will bind; and the anonymous
      response exactly if the rule binds it or answers with it. */
  lemma {:induction false} UseIsBinding(sets: RuleSets, t: RuleTree)
    ensures TreeUse(sets, t).Ok? ==>
              && TreeUse(sets, t).value.tags == Tags(t)
              && (TreeUse(sets, t).value.anonymous <==> Anonymous(t) || AnswersAnonymously(t))
    decreases t, 1
  {
    match t
    case Leaf(_, _, _, _, _, _, _, _, _, _) =>
    case Logical(_, _, rules, _) =>
      ListUseIsBinding(sets, rules, Use(false, []));
      assert [] + TagsOf(rules) == TagsOf(rules);
  }

  lemma {:induction false} ListUseIsBinding(sets: RuleSets, ts: seq<RuleTree>, use: Use)
    ensures var r := ListUse(sets, ts, use);
            r.Ok? ==>
              && r.value.tags == use.tags + TagsOf(ts)
              && (r.value.anonymous <==> use.anonymous || AnyAnonymous(ts) || AnyAnswersAnonymously(ts))
    decreases ts, 0
  {
    if ts != [] {
      UseIsBinding(sets, ts[0]);
      match TreeUse(sets, ts[0])
      case Err(_) =>
      case Ok(first) =>
        ListUseIsBinding(sets, ts[1..], Use(use.anonymous || first.anonymous, use.tags + first.tags));
        assert use.tags + first.tags + TagsOf(ts[1..]) == use.tags + (first.tags + TagsOf(ts[1..]));
    }
  }

  lemma {:induction false} TagsAreNamed(t: RuleTree)
    ensures "" !in Tags(t)
    decreases t, 1
  {
    match t
    case Leaf(_, _, _, _, _, _, _, _, _, _) =>
    case Logical(_, _, rules, _) => ListTagsAreNamed(rules);
  }

  lemma {:induction false} ListTagsAreNamed(ts: seq<RuleTree>)
    ensures "" !in TagsOf(ts)
    decreases ts, 0
  {
    if ts != [] {
      TagsAreNamed(ts[0]);
      ListTagsAreNamed(ts[1..]);
    }
  }

  // ----- the whole list

  predicate Defines(t: RuleTree, tag: string) {
    t.options.action.Evaluate? && t.options.action.tag == tag
  }

  predicate DefinedBefore(ts: seq<RuleTree>, n: nat, tag: string)
    requires n <= |ts|
  {
    exists k | 0 <= k < n :: Defines(ts[k], tag)
  }

  function UseOf(sets: RuleSets, t: RuleTree): Use {
    var r := TreeUse(sets, t);
    if r.Ok? then r.value else Use(false, [])
  }

  /** The first n rules are acceptable: each is well formed, reads only responses that
      an earlier rule evaluates, and no tag is evaluated twice. */
  predicate AcceptableUpTo(sets: RuleSets, ts: seq<RuleTree>, n: nat)
    requires n <= |ts|
  {
    forall i | 0 <= i < n :: AcceptableAt(sets, ts, i)
  }

  predicate AcceptableAt(sets: RuleSets, ts: seq<RuleTree>, i: nat)
    requires i < |ts|
  {
    && TreeUse(sets, ts[i]).Ok?
    && (UseOf(sets, ts[i]).anonymous ==> DefinedBefore(ts, i, ""))
    && (forall tag | tag in UseOf(sets, ts[i]).tags :: DefinedBefore(ts, i, tag))
    && (ts[i].options.action.Evaluate? && ts[i].options.action.tag != "" ==> !DefinedBefore(ts, i, ts[i].options.action.tag))
  }

  predicate Acceptable(sets: RuleSets, ts: seq<RuleTree>) {
    AcceptableUpTo(sets, ts, |ts|)
  }

  datatype Warning = SpeculativeUseless(index: nat) | Overwritten(earlier: nat, later: nat) | NeverReferenced(tag: string)

  predicate Speculative(t: RuleTree) {
    (t.options.action.Evaluate? || t.options.action.Route?) && t.options.action.speculative
  }

  // What the first n rules give rise to.
  predicate Warned(sets: RuleSets, ts: seq<RuleTree>, n: nat, w: Warning)
    requires n <= |ts|
  {
    match w
    case SpeculativeUseless(i) => i < n && Speculative(ts[i]) && forall k | 0 <= k < i :: !ts[k].options.race
    case Overwritten(a, b) =>
      && a < b < n
      && Defines(ts[a], "")
      && Defines(ts[b], "")
      && (forall k | a < k < b :: !Defines(ts[k], ""))
      && (forall k | a < k <= b :: !UseOf(sets, ts[k]).anonymous)
    case NeverReferenced(_) => false
  }

  predicate ReferencedBefore(sets: RuleSets, ts: seq<RuleTree>, n: nat, tag: string)
    requires n <= |ts|
  {
    exists k | 0 <= k < n :: tag in UseOf(sets, ts[k]).tags
  }

  predicate WarnedAtEnd(sets: RuleSets, ts: seq<RuleTree>, w: Warning) {
    match w
    case NeverReferenced(tag) => tag != "" && DefinedBefore(ts, |ts|, tag) && !ReferencedBefore(sets, ts, |ts|, tag)
    case _ => Warned(sets, ts, |ts|, w)
  }

  // The most recent anonymous evaluate among the first n rules, and whether it has been read since.
  predicate LastAnonymous(sets: RuleSets, ts: seq<RuleTree>, n: nat, last: Option<nat>, read: bool)
    requires n <= |ts|
  {
    var kept :=
      match last
      case None => !DefinedBefore(ts, n, "")
      case Some(a) =>
        && a < n
        && Defines(ts[a], "")
        && (forall k | a < k < n :: !Defines(ts[k], ""))
        && (read <==> exists k | a < k < n :: UseOf(sets, ts[k]).anonymous);
    kept
  }

  // The validator's tables after the first n rules.
  ghost predicate Tables(sets: RuleSets, ts: seq<RuleTree>, n: nat, defined: set<string>, order: seq<string>, referenced: set<string>)
    requires n <= |ts|
  {
    var kept :=
      && (forall tag :: tag in defined <==> tag != "" && DefinedBefore(ts, n, tag))
      && (forall tag :: tag in order <==> tag in defined)
      && (forall tag :: tag in referenced <==> ReferencedBefore(sets, ts, n, tag));
    kept
  }

  // A refusal of rule i names a rule that is not acceptable, and nothing before it was refused.
  predicate RefusedAt(sets: RuleSets, ts: seq<RuleTree>, i: nat) {
    i < |ts| && AcceptableUpTo(sets, ts, i) && !AcceptableAt(sets, ts, i)
  }

  /** The refusal says what is wrong with rule i: what its tree is refused for, or that it
      reads a response no earlier rule evaluates, or evaluates a tag again. */
  predicate Explains(sets: RuleSets, ts: seq<RuleTree>, i: nat, e: Refusal)
    requires i < |ts|
  {
    match TreeUse(sets, ts[i])
    case Err(refused) => e == refused
    case Ok(use) =>
      match e
      case NoAnonymousEvaluate(k) => k == i && use.anonymous && !DefinedBefore(ts, i, "")
      case UndefinedTag(k, tag) => k == i && tag in use.tags && !DefinedBefore(ts, i, tag)
      case DuplicateTag(k, tag) => k == i && tag != "" && Defines(ts[i], tag) && DefinedBefore(ts, i, tag)
      case _ => false
  }

  // A rule is not acceptable exactly if there is something to say against it.
  lemma ExplainedIsRefused(sets: RuleSets, ts: seq<RuleTree>, i: nat)
    requires i < |ts|
    ensures (exists e :: Explains(sets, ts, i, e)) <==> !AcceptableAt(sets, ts, i)
  {
    if TreeUse(sets, ts[i]).Ok? {
      var use := TreeUse(sets, ts[i]).value;
      if use.anonymous && !DefinedBefore(ts, i, "") {
        assert Explains(sets, ts, i, NoAnonymousEvaluate(i));
      } else if tag :| tag in use.tags && !DefinedBefore(ts, i, tag) {
        assert Explains(sets, ts, i, UndefinedTag(i, tag));
      } else if ts[i].options.action.Evaluate? {
        assert !AcceptableAt(sets, ts, i) ==> Explains(sets, ts, i, DuplicateTag(i, ts[i].options.action.tag));
      }
    } else {
      assert Explains(sets, ts, i, TreeUse(sets, ts[i]).error);
    }
  }

  function TagSet(tags: seq<string>): set<string> {
    set tag | tag in tags
  }

  // The references of one rule, checked in turn.
  method CheckReferences(i: nat, tags: seq<string>, defined: set<string>, referenced: set<string>)
    returns (undefined: Option<string>, referenced': set<string>)
    ensures undefined.None? ==> (forall tag | tag in tags :: tag in defined) && referenced' == referenced + TagSet(tags)
    ensures undefined.Some? ==> undefined.value in tags && undefined.value !in defined
  {
    referenced' := referenced;
    for n := 0 to |tags|
      invariant forall k | 0 <= k < n :: tags[k] in defined
      invariant referenced' == referenced + TagSet(tags[..n])
    {
      if tags[n] !in defined {
        return Some(tags[n]), referenced';
      }
      assert tags[..n + 1] == tags[..n] + [tags[n]];
      referenced' := referenced' + {tags[n]};
    }
    assert tags[..|tags|] == tags;
    return None, referenced';
  }

  // The tags that were evaluated and never read.
  method Unreferenced(order: seq<string>, referenced: set<string>) returns (warnings: seq<Warning>)
    ensures forall w :: w in warnings <==> w.NeverReferenced? && w.tag in order && w.tag !in referenced
  {
    warnings := [];
    for n := 0 to |order|
      invariant forall w :: w in warnings <==> w.NeverReferenced? && w.tag in order[..n] && w.tag !in referenced
    {
      assert order[..n + 1] == order[..n] + [order[n]];
      if order[n] !in referenced {
        warnings := warnings + [NeverReferenced(order[n])];
      }
    }
    assert order[..|order|] == order;
  }

  lemma TablesStep(sets: RuleSets, ts: seq<RuleTree>, i: nat, defined: set<string>, order: seq<string>, referenced: set<string>)
    requires i < |ts| && Tables(sets, ts, i, defined, order, referenced)
    ensures var action, referenced' := ts[i].options.action, referenced + TagSet(UseOf(sets, ts[i]).tags);
            if action.Evaluate? && action.tag != ""
            then Tables(sets, ts, i + 1, defined + {action.tag}, order + [action.tag], referenced')
            else Tables(sets, ts, i + 1, defined, order, referenced')
  {
    assert forall tag :: DefinedBefore(ts, i + 1, tag) <==> DefinedBefore(ts, i, tag) || Defines(ts[i], tag);
    assert forall tag :: ReferencedBefore(sets, ts, i + 1, tag) <==> ReferencedBefore(sets, ts, i, tag) || tag in UseOf(sets, ts[i]).tags;
  }

  lemma LastStep(sets: RuleSets, ts: seq<RuleTree>, i: nat, last: Option<nat>, read: bool)
    requires i < |ts| && LastAnonymous(sets, ts, i, last, read)
    ensures if Defines(ts[i], "") then LastAnonymous(sets, ts, i + 1, Some(i), false)
            else LastAnonymous(sets, ts, i + 1, last, read || UseOf(sets, ts[i]).anonymous)
  {
  }

  predicate RaceBefore(ts: seq<RuleTree>, n: nat)
    requires n <= |ts|
  {
    exists k | 0 <= k < n :: ts[k].options.race
  }

  lemma PrefixStep(sets: RuleSets, ts: seq<RuleTree>, i: nat)
    requires i < |ts|
    ensures AcceptableUpTo(sets, ts, i + 1) <==> AcceptableUpTo(sets, ts, i) && AcceptableAt(sets, ts, i)
    ensures RaceBefore(ts, i + 1) <==> RaceBefore(ts, i) || ts[i].options.race
  {
  }

  // The warnings rule i adds.
  predicate AddedWarning(sets: RuleSets, ts: seq<RuleTree>, i: nat, last: Option<nat>, read: bool, w: Warning)
    requires i < |ts|
  {
    || (w == SpeculativeUseless(i) && Speculative(ts[i]) && forall k | 0 <= k < i :: !ts[k].options.race)
    || (last.Some? && w == Overwritten(last.value, i) && Defines(ts[i], "") && !read && !UseOf(sets, ts[i]).anonymous)
  }

  lemma WarnedStep(sets: RuleSets, ts: seq<RuleTree>, i: nat, last: Option<nat>, read: bool, w: Warning)
    requires i < |ts| && LastAnonymous(sets, ts, i, last, read)
    ensures Warned(sets, ts, i + 1, w) <==> Warned(sets, ts, i, w) || AddedWarning(sets, ts, i, last, read, w)
  {
  }

  ghost predicate WarningsAre(sets: RuleSets, ts: seq<RuleTree>, n: nat, warnings: seq<Warning>)
    requires n <= |ts|
  {
    var exact := forall w :: w in warnings <==> Warned(sets, ts, n, w);
    exact
  }

  lemma WarningsStep(sets: RuleSets, ts: seq<RuleTree>, i: nat, last: Option<nat>, read: bool, before: seq<Warning>, after: seq<Warning>)
    requires i < |ts| && LastAnonymous(sets, ts, i, last, read) && WarningsAre(sets, ts, i, before)
    requires forall w :: w in after <==> w in before || AddedWarning(sets, ts, i, last, read, w)
    ensures WarningsAre(sets, ts, i + 1, after)
  {
    forall w
      ensures w in after <==> Warned(sets, ts, i + 1, w)
    {
      WarnedStep(sets, ts, i, last, read, w);
    }
  }

  method AddWarnings(sets: RuleSets, ts: seq<RuleTree>, i: nat, seenRace: bool, last: Option<nat>, read: bool, use: Use, before: seq<Warning>)
    returns (warnings: seq<Warning>)
    requires i < |ts| && TreeUse(sets, ts[i]) == Ok(use)
    requires seenRace == RaceBefore(ts, i)
    requires LastAnonymous(sets, ts, i, last, read) && WarningsAre(sets, ts, i, before)
    ensures WarningsAre(sets, ts, i + 1, warnings)
  {
    warnings := before;
    if Speculative(ts[i]) && !seenRace {
      warnings := warnings + [SpeculativeUseless(i)];
    }
    if Defines(ts[i], "") && last.Some? && !read && !use.anonymous {
      warnings := warnings + [Overwritten(last.value, i)];
    }
    WarningsStep(sets, ts, i, last, read, before, warnings);
  }

  // Rule i on its own: what is wrong with it, given what earlier rules evaluate.
  method CheckRule(sets: RuleSets, ts: seq<RuleTree>, i: nat, use: Use, defined: set<string>, seenAnonymous: bool, referenced: set<string>)
    returns (refusal: Option<Refusal>, referenced': set<string>)
    requires i < |ts| && TreeUse(sets, ts[i]) == Ok(use)
    requires forall tag :: tag in defined <==> tag != "" && DefinedBefore(ts, i, tag)
    requires seenAnonymous <==> DefinedBefore(ts, i, "")
    ensures refusal.None? <==> AcceptableAt(sets, ts, i)
    ensures refusal.Some? ==> Explains(sets, ts, i, refusal.value)
    ensures refusal.None? ==> referenced' == referenced + TagSet(use.tags)
  {
    UseIsBinding(sets, ts[i]);
    TagsAreNamed(ts[i]);
    referenced' := referenced;
    if use.anonymous && !seenAnonymous {
      return Some(NoAnonymousEvaluate(i)), referenced';
    }
    var undefined;
    undefined, referenced' := CheckReferences(i, use.tags, defined, referenced);
    if undefined.Some? {
      return Some(UndefinedTag(i, undefined.value)), referenced';
    }
    var action := ts[i].options.action;
    if action.Evaluate? && action.tag in defined {
      return Some(DuplicateTag(i, action.tag)), referenced';
    }
    return None, referenced';
  }

  method CheckTree(sets: RuleSets, ts: seq<RuleTree>, i: nat, defined: set<string>, seenAnonymous: bool, referenced: set<string>)
    returns (r: Result<Use, Refusal>, referenced': set<string>)
    requires i < |ts|
    requires forall tag :: tag in defined <==> tag != "" && DefinedBefore(ts, i, tag)
    requires seenAnonymous <==> DefinedBefore(ts, i, "")
    ensures r.Ok? <==> AcceptableAt(sets, ts, i)
    ensures r.Ok? ==> TreeUse(sets, ts[i]) == r && referenced' == referenced + TagSet(UseOf(sets, ts[i]).tags)
    ensures r.Err? ==> Explains(sets, ts, i, r.error)
  {
    r, referenced' := TreeUse(sets, ts[i]), referenced;
    if r.Ok? {
      var refusal;
      refusal, referenced' := CheckRule(sets, ts, i, r.value, defined, seenAnonymous, referenced);
      if refusal.Some? {
        r := Err(refusal.value);
      }
    }
  }

  method AddTag(sets: RuleSets, ts: seq<RuleTree>, i: nat, defined: set<string>, order: seq<string>, referenced: set<string>, ghost earlier: set<string>)
    returns (defined': set<string>, order': seq<string>)
    requires i < |ts| && Tables(sets, ts, i, defined, order, earlier)
    requires referenced == earlier + TagSet(UseOf(sets, ts[i]).tags)
    ensures Tables(sets, ts, i + 1, defined', order', referenced)
  {
    TablesStep(sets, ts, i, defined, order, earlier);
    var action := ts[i].options.action;
    defined', order' := defined, order;
    if action.Evaluate? && action.tag != "" {
      defined', order' := defined + {action.tag}, order + [action.tag];
    }
  }

  method AddAnonymous(sets: RuleSets, ts: seq<RuleTree>, i: nat, use: Use, last: Option<nat>, read: bool)
    returns (last': Option<nat>, read': bool)
    requires i < |ts| && TreeUse(sets, ts[i]) == Ok(use) && LastAnonymous(sets, ts, i, last, read)
    ensures LastAnonymous(sets, ts, i + 1, last', read')
  {
    LastStep(sets, ts, i, last, read);
    last', read' := last, read || use.anonymous;
    if ts[i].options.action.Evaluate? && ts[i].options.action.tag == "" {
      last', read' := Some(i), false;
    }
  }

  /** Accept a rule list iff it is acceptable, with exactly the warnings it gives rise
      to; a refusal is for the first rule that is not acceptable, and says why. */
  method Validate(sets: RuleSets, ts: seq<RuleTree>) returns (r: Result<seq<Warning>, Refusal>)
    ensures r.Ok? <==> Acceptable(sets, ts)
    ensures r.Ok? ==> forall w :: w in r.value <==> WarnedAtEnd(sets, ts, w)
    ensures r.Err? ==> exists i :: RefusedAt(sets, ts, i) && Explains(sets, ts, i, r.error)
  {
    var warnings: seq<Warning> := [];
    var seenRace := false;
    var defined, order, referenced: set<string> := {}, [], {};
    var last: Option<nat> := None;
    var read := false;
    for i := 0 to |ts|
      invariant AcceptableUpTo(sets, ts, i)
      invariant seenRace == RaceBefore(ts, i)
      invariant Tables(sets, ts, i, defined, order, referenced)
      invariant LastAnonymous(sets, ts, i, last, read)
      invariant WarningsAre(sets, ts, i, warnings)
    {
      ghost var earlier := referenced;
      var use;
      use, referenced := CheckTree(sets, ts, i, defined, last.Some?, referenced);
      if use.Err? {
        assert RefusedAt(sets, ts, i) && Explains(sets, ts, i, use.error);
        return Err(use.error);
      }
      PrefixStep(sets, ts, i);
      warnings := AddWarnings(sets, ts, i, seenRace, last, read, use.value, warnings);
      seenRace := seenRace || ts[i].options.race;
      last, read := AddAnonymous(sets, ts, i, use.value, last, read);
      defined, order := AddTag(sets, ts, i, defined, order, referenced, earlier);
    }
    var unreferenced := Unreferenced(order, referenced);
    return Ok(warnings + unreferenced);
  }

  // ----- what acceptance means for the walk

  /** An accepted list compiles to well-formed rules: in every run of the walk a bound
      tag can only have been set by an earlier rule, and is never set again. */
  lemma AcceptedIsWellFormed(sets: RuleSets, ts: seq<RuleTree>)
    requires Acceptable(sets, ts)
    ensures WellFormed(CompileAll(ts))
  {
    var rules := CompileAll(ts);
    forall i | 0 <= i < |ts|
      ensures "" !in rules[i].tags
      ensures forall tag | tag in rules[i].tags :: DefinedBefore(ts, i, tag)
      ensures rules[i].respondTag != "" ==> rules[i].tags == [rules[i].respondTag]
      ensures rules[i].action.Respond? && rules[i].respondTag == "" ==> rules[i].tags == []
    {
      assert AcceptableAt(sets, ts, i);
      UseIsBinding(sets, ts[i]);
      TagsAreNamed(ts[i]);
    }
    forall i, j | 0 <= i < j < |ts| && ts[i].options.action.Evaluate? && Defines(ts[j], ts[i].options.action.tag)
      ensures ts[i].options.action.tag == ""
    {
      assert AcceptableAt(sets, ts, j);
      assert Defines(ts[i], ts[j].options.action.tag);
    }
  }
}
