/** Starting DNS transports in dependency order, round by round, and reporting what
    stands in the way if a round starts nothing. */
module TransportStart {
  import opened Wrappers

  datatype Transport = Transport(tag: string, dependencies: seq<string>)

  function Tags(ts: seq<Transport>): set<string> {
    set t | t in ts :: t.tag
  }

  predicate UniqueTags(ts: seq<Transport>) {
    forall i, j | 0 <= i < j < |ts| :: ts[i].tag != ts[j].tag
  }

  // ----- what is promised

  // Each after everything it depends on.
  predicate Ordered(order: seq<Transport>) {
    forall k, d | 0 <= k < |order| && d in order[k].dependencies :: d in Tags(order[..k])
  }

  predicate ValidOrder(ts: seq<Transport>, order: seq<Transport>) {
    multiset(order) == multiset(ts) && Ordered(order)
  }

  predicate DependsOn(ts: seq<Transport>, tag: string, dependency: string) {
    exists t | t in ts :: t.tag == tag && dependency in t.dependencies
  }

  predicate IsPath(ts: seq<Transport>, path: seq<string>) {
    forall k | 0 <= k < |path| - 1 :: DependsOn(ts, path[k], path[k + 1])
  }

  // A path that comes back to one of its own tags.
  predicate IsCycle(ts: seq<Transport>, path: seq<string>) {
    |path| > 1 && IsPath(ts, path) && path[|path| - 1] in path[..|path| - 1]
  }

  // A path that leads out of the transports.
  predicate IsDeadEnd(ts: seq<Transport>, path: seq<string>) {
    |path| > 1 && IsPath(ts, path) && path[|path| - 1] !in Tags(ts)
  }

  ghost predicate Sound(ts: seq<Transport>) {
    (forall path :: !IsCycle(ts, path)) && (forall path :: !IsDeadEnd(ts, path))
  }

  // ----- an order rules out cycles and dead ends

  function Position(order: seq<Transport>, tag: string): (p: nat)
    requires tag in Tags(order)
    ensures p < |order| && order[p].tag == tag
    ensures tag !in Tags(order[..p])
  {
    var last := order[|order| - 1];
    var front := order[..|order| - 1];
    assert order == front + [last];
    if tag in Tags(front) then
      var p := Position(front, tag);
      assert front[..p] == order[..p];
      p
    else |order| - 1
  }

  lemma DependencyIsEarlier(ts: seq<Transport>, order: seq<Transport>, tag: string, dependency: string)
    requires UniqueTags(ts) && ValidOrder(ts, order) && DependsOn(ts, tag, dependency)
    ensures tag in Tags(order) && dependency in Tags(order) && Position(order, dependency) < Position(order, tag)
  {
    var t :| t in ts && t.tag == tag && dependency in t.dependencies;
    assert t in multiset(order);
    var k :| 0 <= k < |order| && order[k] == t;
    assert tag in Tags(order);
    var p := Position(order, tag);
    SameTag(ts, order[p], t, order);
    var q :| 0 <= q < p && order[..p][q].tag == dependency;
    assert order[q] in order;
  }

  lemma SameTag(ts: seq<Transport>, a: Transport, b: Transport, order: seq<Transport>)
    requires UniqueTags(ts) && multiset(order) == multiset(ts) && a in order && b in ts && a.tag == b.tag
    ensures a == b
  {
    assert a in multiset(ts);
    var i :| 0 <= i < |ts| && ts[i] == a;
    var j :| 0 <= j < |ts| && ts[j] == b;
    assert i == j;
  }

  lemma {:induction false} PathDescends(ts: seq<Transport>, order: seq<Transport>, path: seq<string>, i: nat, j: nat)
    requires UniqueTags(ts) && ValidOrder(ts, order) && IsPath(ts, path) && i < j < |path|
    ensures path[i] in Tags(order) && path[j] in Tags(order) && Position(order, path[j]) < Position(order, path[i])
  {
    DependencyIsEarlier(ts, order, path[j - 1], path[j]);
    if i < j - 1 {
      PathDescends(ts, order, path, i, j - 1);
    }
  }

  lemma OrderIsSound(ts: seq<Transport>, order: seq<Transport>)
    requires UniqueTags(ts) && ValidOrder(ts, order)
    ensures Sound(ts)
  {
    forall path
      ensures !IsCycle(ts, path) && !IsDeadEnd(ts, path)
    {
      if |path| > 1 && IsPath(ts, path) {
        var n := |path| - 1;
        PathDescends(ts, order, path, 0, n);
        assert Tags(order) == Tags(ts) by {
          assert forall t :: t in order <==> t in multiset(order);
          assert forall t :: t in ts <==> t in multiset(ts);
        }
        if path[n] in path[..n] {
          var i :| 0 <= i < n && path[..n][i] == path[n];
          PathDescends(ts, order, path, i, n);
        }
      }
    }
  }

  // ----- starting

  /** What has been started so far: transports of the list, none twice, each after
      everything it depends on. */
  predicate Progress(ts: seq<Transport>, order: seq<Transport>) {
    && (forall t | t in order :: t in ts)
    && UniqueTags(order)
    && Ordered(order)
  }

  predicate Blocked(t: Transport, started: set<string>) {
    exists d | d in t.dependencies :: d !in started
  }

  // Nothing more can be started.
  predicate Stuck(ts: seq<Transport>, started: set<string>) {
    forall t | t in ts :: t.tag in started || Blocked(t, started)
  }

  lemma ProgressNext(ts: seq<Transport>, order: seq<Transport>, t: Transport)
    requires Progress(ts, order) && t in ts && t.tag !in Tags(order) && !Blocked(t, Tags(order))
    ensures Progress(ts, order + [t]) && Tags(order + [t]) == Tags(order) + {t.tag}
  {
    var next := order + [t];
    assert forall k | 0 <= k < |order| :: order[k] in order;
    assert forall k | 0 <= k <= |order| :: next[..k] == order[..k];
    assert order[..|order|] == order;
  }

  lemma {:induction false} TagCount(ts: seq<Transport>)
    requires UniqueTags(ts)
    ensures |Tags(ts)| == |ts|
  {
    if ts != [] {
      var front, last := ts[..|ts| - 1], ts[|ts| - 1];
      TagCount(front);
      assert ts == front + [last];
      assert Tags(ts) == Tags(front) + {last.tag};
      assert last.tag !in Tags(front);
    }
  }

  lemma {:induction false} SubsetCount<T>(a: set<T>, b: set<T>)
    requires a <= b
    ensures |a| <= |b| && (|a| == |b| ==> a == b)
  {
    if a != {} {
      var x :| x in a;
      SubsetCount(a - {x}, b - {x});
    }
  }

  lemma ProgressCount(ts: seq<Transport>, order: seq<Transport>)
    requires UniqueTags(ts) && Progress(ts, order)
    ensures |Tags(order)| == |order| <= |ts|
    ensures |order| == |ts| ==> Tags(order) == Tags(ts)
    ensures |order| < |ts| ==> exists t | t in ts :: t.tag !in Tags(order)
  {
    TagCount(ts);
    TagCount(order);
    SubsetCount(Tags(order), Tags(ts));
    if forall t | t in ts :: t.tag in Tags(order) {
      assert Tags(ts) == Tags(order);
    }
  }

  // All started, each exactly once.
  lemma ProgressDone(ts: seq<Transport>, order: seq<Transport>)
    requires UniqueTags(ts) && Progress(ts, order) && |order| == |ts|
    ensures ValidOrder(ts, order)
  {
    ProgressCount(ts, order);
    forall t
      ensures multiset(order)[t] == multiset(ts)[t]
    {
      CountInUnique(order, t);
      CountInUnique(ts, t);
      assert t in ts ==> t.tag in Tags(order);
    }
  }

  lemma {:induction false} CountInUnique(ts: seq<Transport>, t: Transport)
    requires UniqueTags(ts)
    ensures multiset(ts)[t] == if t in ts then 1 else 0
  {
    if ts != [] {
      var front, last := ts[..|ts| - 1], ts[|ts| - 1];
      CountInUnique(front, t);
      assert ts == front + [last];
      assert last !in front;
    }
  }

  datatype Outcome =
    | Started
    | StartFailed(tag: string)
    | Circular(path: seq<string>)
    | NotFound(missing: string, server: string)

  method Ready(t: Transport, started: set<string>) returns (ready: bool)
    ensures ready <==> !Blocked(t, started)
  {
    for k := 0 to |t.dependencies|
      invariant forall i | 0 <= i < k :: t.dependencies[i] in started
    {
      if t.dependencies[k] !in started {
        return false;
      }
    }
    return true;
  }

  /** One round over the list. failing are the transports whose start fails; the round
      ends there. */
  method StartRound(ts: seq<Transport>, order: seq<Transport>, failing: set<string>)
    returns (order': seq<Transport>, canContinue: bool, failed: Option<string>)
    requires UniqueTags(ts) && Progress(ts, order)
    ensures Progress(ts, order') && order <= order'
    ensures canContinue <==> |order| < |order'|
    ensures failed.None? && !canContinue ==> Stuck(ts, Tags(order))
    ensures failed.Some? ==> |order| < |order'| && failed.value == order'[|order'| - 1].tag && failed.value in failing
    ensures failed.None? ==> forall k | |order| <= k < |order'| :: order'[k].tag !in failing
    ensures failed.Some? ==> forall k | |order| <= k < |order'| - 1 :: order'[k].tag !in failing
  {
    order', canContinue, failed := order, false, None;
    var started := Tags(order);
    for i := 0 to |ts|
      invariant Progress(ts, order') && order <= order' && started == Tags(order')
      invariant canContinue <==> |order| < |order'|
      invariant !canContinue ==> forall k | 0 <= k < i :: ts[k].tag in started || Blocked(ts[k], started)
      invariant forall k | |order| <= k < |order'| :: order'[k].tag !in failing
    {
      if ts[i].tag in started {
        continue;
      }
      var ready := Ready(ts[i], started);
      if !ready {
        continue;
      }
      ProgressNext(ts, order', ts[i]);
      started := started + {ts[i].tag};
      order' := order' + [ts[i]];
      canContinue := true;
      if ts[i].tag in failing {
        failed := Some(ts[i].tag);
        return;
      }
    }
  }

  method Unstarted(ts: seq<Transport>, started: set<string>) returns (t: Transport)
    requires exists t | t in ts :: t.tag !in started
    ensures t in ts && t.tag !in started
  {
    for i := 0 to |ts|
      invariant forall k | 0 <= k < i :: ts[k].tag in started
    {
      if ts[i].tag !in started {
        return ts[i];
      }
    }
    assert false;
    return Transport("", []);
  }

  method Missing(t: Transport, started: set<string>) returns (d: string)
    requires Blocked(t, started)
    ensures d in t.dependencies && d !in started
  {
    for i := 0 to |t.dependencies|
      invariant forall k | 0 <= k < i :: t.dependencies[k] in started
    {
      if t.dependencies[i] !in started {
        return t.dependencies[i];
      }
    }
    assert false;
    return "";
  }

  method Lookup(ts: seq<Transport>, tag: string) returns (r: Option<Transport>)
    ensures r.Some? ==> r.value in ts && r.value.tag == tag
    ensures r.None? ==> tag !in Tags(ts)
  {
    for i := 0 to |ts|
      invariant forall k | 0 <= k < i :: ts[k].tag != tag
    {
      if ts[i].tag == tag {
        return Some(ts[i]);
      }
    }
    return None;
  }

  function TagSet(path: seq<string>): set<string> {
    set tag | tag in path
  }

  predicate Simple(path: seq<string>) {
    forall i, j | 0 <= i < j < |path| :: path[i] != path[j]
  }

  lemma {:induction false} SimpleCount(path: seq<string>)
    requires Simple(path)
    ensures |TagSet(path)| == |path|
  {
    if path != [] {
      var front, last := path[..|path| - 1], path[|path| - 1];
      SimpleCount(front);
      assert TagSet(path) == TagSet(front) + {last};
      assert last !in front;
    }
  }

  lemma PathIsShort(ts: seq<Transport>, path: seq<string>)
    requires UniqueTags(ts) && Simple(path) && TagSet(path) <= Tags(ts)
    ensures |path| <= |ts|
  {
    SimpleCount(path);
    TagCount(ts);
    SubsetCount(TagSet(path), Tags(ts));
  }

  // Follow what blocks what, until it repeats or is not there.
  method LintTransport(ts: seq<Transport>, started: set<string>, path: seq<string>, current: Transport) returns (r: Outcome)
    requires UniqueTags(ts) && Stuck(ts, started) && current in ts && current.tag !in started
    requires path != [] && path[|path| - 1] == current.tag
    requires IsPath(ts, path) && Simple(path) && TagSet(path) <= Tags(ts) && |path| <= |ts|
    ensures r.Circular? || r.NotFound?
    ensures r.Circular? ==> IsCycle(ts, r.path) && path <= r.path && Simple(r.path[..|r.path| - 1])
    ensures r.NotFound? ==> IsDeadEnd(ts, [r.server, r.missing])
    decreases |ts| - |path|
  {
    var problem := Missing(current, started);
    var next := path + [problem];
    assert DependsOn(ts, current.tag, problem);
    assert IsPath(ts, next);
    if problem in path {
      assert next[..|next| - 1] == path;
      return Circular(next);
    }
    var found := Lookup(ts, problem);
    if found.None? {
      assert IsPath(ts, [current.tag, problem]);
      return NotFound(problem, current.tag);
    }
    assert TagSet(next) == TagSet(path) + {problem};
    PathIsShort(ts, next);
    r := LintTransport(ts, started, next, found.value);
  }

  /** Everything is started exactly once and after its dependencies, unless a start
      fails; that happens exactly if there is neither a cycle nor a missing dependency,
      and otherwise one of these is reported. */
  method StartTransports(ts: seq<Transport>, failing: set<string>) returns (r: Outcome, order: seq<Transport>)
    requires UniqueTags(ts)
    ensures Progress(ts, order)
    ensures r.Started? ==> ValidOrder(ts, order) && Tags(order) !! failing
    ensures r.StartFailed? ==> order != [] && order[|order| - 1].tag == r.tag && r.tag in failing && Tags(order[..|order| - 1]) !! failing
    ensures r.Circular? ==> IsCycle(ts, r.path) && Simple(r.path[..|r.path| - 1])
    ensures r.NotFound? ==> IsDeadEnd(ts, [r.server, r.missing])
    ensures !r.StartFailed? ==> (r.Started? <==> Sound(ts))
  {
    order := [];
    while true
      invariant Progress(ts, order) && Tags(order) !! failing && |order| <= |ts|
      decreases |ts| - |order|
    {
      var more, canContinue, failed := StartRound(ts, order, failing);
      ProgressCount(ts, more);
      order := more;
      if failed.Some? {
        return StartFailed(failed.value), order;
      }
      if |Tags(order)| == |ts| {
        break;
      }
      if canContinue {
        continue;
      }
      var current := Unstarted(ts, Tags(order));
      r := LintTransport(ts, Tags(order), [current.tag], current);
      return;
    }
    ProgressDone(ts, order);
    OrderIsSound(ts, order);
    r := Started;
  }
}
