/** The stream of connection events that a client folds to follow the connections of the
    service: what the service remembers of each connection it has announced, and what
    the client makes of the events. */
module ConnectionStream {
  import opened Wrappers

  type Id = nat

  // 0 stands for a connection that is not closed.
  type Moment = t: int | t != 0 witness 1

  datatype Counters = Counters(up: int, down: int)

  const ZERO := Counters(0, 0)

  function Plus(a: Counters, b: Counters): Counters {
    Counters(a.up + b.up, a.down + b.down)
  }

  function Minus(a: Counters, b: Counters): Counters {
    Counters(a.up - b.up, a.down - b.down)
  }

  datatype Event =
    | New(id: Id, total: Counters, closedAt: int)
    | Update(id: Id, delta: Counters)
    | Closed(id: Id, at: Moment, final: Option<Counters>)

  // ----- the client

  datatype Conn = Conn(rate: Counters, total: Counters, closedAt: int)

  type View = map<Id, Conn>

  predicate IsOpen(client: View, id: Id) {
    id in client && client[id].closedAt == 0
  }

  function Fold(client: View, e: Event): View {
    match e
    case New(id, total, closedAt) => client[id := Conn(ZERO, total, closedAt)]
    case Update(id, delta) =>
      if id in client then client[id := client[id].(rate := delta, total := Plus(client[id].total, delta))] else client
    case Closed(id, at, final) =>
      if final.Some? then client[id := Conn(ZERO, final.value, at)]
      else if id in client then client[id := client[id].(rate := ZERO, closedAt := at)]
      else client
  }

  function FoldAll(client: View, events: seq<Event>): View {
    if events == [] then client else Fold(FoldAll(client, events[..|events| - 1]), events[|events| - 1])
  }

  const MAX_AGE: int := 300_000

  function Evicted(client: View, now: int): View {
    map id | id in client && (client[id].closedAt == 0 || now - client[id].closedAt <= MAX_AGE) :: client[id]
  }

  // Alike as far as open connections go.
  ghost predicate SameOpen(a: View, b: View) {
    forall id | id in a || id in b :: (IsOpen(a, id) <==> IsOpen(b, id)) && (IsOpen(a, id) ==> a[id] == b[id])
  }

  lemma FoldKeepsSameOpen(a: View, b: View, e: Event)
    requires SameOpen(a, b)
    ensures SameOpen(Fold(a, e), Fold(b, e))
  {
    assert IsOpen(a, e.id) <==> IsOpen(b, e.id);
  }

  // Forgetting closed connections early or late makes no difference to the open ones.
  lemma {:induction false} EvictionIsInvisible(a: View, b: View, events: seq<Event>, now: int)
    requires SameOpen(a, b)
    ensures SameOpen(FoldAll(a, events), FoldAll(b, events))
    ensures SameOpen(Evicted(FoldAll(a, events), now), FoldAll(b, events))
  {
    if events != [] {
      var front := events[..|events| - 1];
      EvictionIsInvisible(a, b, front, now);
      FoldKeepsSameOpen(FoldAll(a, front), FoldAll(b, front), events[|events| - 1]);
    }
  }

  // ----- what the client makes of each event, spelled out

  predicate Same(a: View, b: View, id: Id) {
    (id in a <==> id in b) && (id in a ==> b[id] == a[id])
  }

  // The entry that an event makes of what was there, if any.
  predicate Makes(conn: Option<Conn>, e: Event, conn': Option<Conn>) {
    match e
    case New(_, total, closedAt) => conn' == Some(Conn(Counters(0, 0), total, closedAt))
    case Update(_, delta) =>
      if conn.Some? then
        conn' == Some(Conn(delta, Counters(conn.value.total.up + delta.up, conn.value.total.down + delta.down), conn.value.closedAt))
      else conn' == None
    case Closed(_, at, Some(final)) => conn' == Some(Conn(Counters(0, 0), final, at))
    case Closed(_, at, None) =>
      if conn.Some? then conn' == Some(Conn(Counters(0, 0), conn.value.total, at)) else conn' == None
  }

  function Entry(client: View, id: Id): Option<Conn> {
    if id in client then Some(client[id]) else None
  }

  // Kept, unless closed and too long ago.
  predicate Ages(conn: Option<Conn>, now: int, conn': Option<Conn>) {
    if conn.Some? && (conn.value.closedAt == 0 || now - conn.value.closedAt <= 300_000) then conn' == conn else conn' == None
  }

  predicate Unnamed(events: seq<Event>, id: Id) {
    forall k | 0 <= k < |events| :: events[k].id != id
  }

  // Event k is the last one on its connection.
  predicate IsLast(events: seq<Event>, k: nat) {
    k < |events| && forall l | k < l < |events| :: events[l].id != events[k].id
  }

  lemma FoldMakes(client: View, e: Event)
    ensures Makes(Entry(client, e.id), e, Entry(Fold(client, e), e.id))
    ensures forall id: Id | id != e.id :: Same(client, Fold(client, e), id)
  {
  }

  lemma {:induction false} UnnamedStays(client: View, events: seq<Event>, id: Id)
    requires Unnamed(events, id)
    ensures Same(client, FoldAll(client, events), id)
  {
    if events != [] {
      var front := events[..|events| - 1];
      UnnamedStays(client, front, id);
      FoldMakes(FoldAll(client, front), events[|events| - 1]);
    }
  }

  /** The last event on a connection decides its entry, from what the events before it had
      made of it. */
  lemma {:induction false} LastDecides(client: View, events: seq<Event>, k: nat)
    requires IsLast(events, k)
    ensures Makes(Entry(FoldAll(client, events[..k]), events[k].id), events[k], Entry(FoldAll(client, events), events[k].id))
  {
    var front, last := events[..|events| - 1], events[|events| - 1];
    if k == |events| - 1 {
      FoldMakes(FoldAll(client, front), last);
    } else {
      LastDecides(client, front, k);
      assert front[..k] == events[..k];
      FoldMakes(FoldAll(client, front), last);
    }
  }

  lemma EvictedAges(client: View, now: int, id: Id)
    ensures Ages(Entry(client, id), now, Entry(Evicted(client, now), id))
  {
  }

  // An entry is what the last event on it made of it, or what it was without one; then it ages.
  ghost predicate Applied(start: View, events: seq<Event>, now: int, after: View) {
    && (forall id: Id | Unnamed(events, id) :: Ages(Entry(start, id), now, Entry(after, id)))
    && (forall k: nat | IsLast(events, k) :: Decides(start, events, k, now, after))
  }

  ghost predicate Decides(start: View, events: seq<Event>, k: nat, now: int, after: View)
    requires IsLast(events, k)
  {
    exists conn: Option<Conn> ::
      && Makes(Entry(FoldAll(start, events[..k]), events[k].id), events[k], conn)
      && Ages(conn, now, Entry(after, events[k].id))
  }

  lemma FoldedIsApplied(start: View, events: seq<Event>, now: int)
    ensures Applied(start, events, now, Evicted(FoldAll(start, events), now))
  {
    var folded := FoldAll(start, events);
    forall id: Id | Unnamed(events, id)
      ensures Ages(Entry(start, id), now, Entry(Evicted(folded, now), id))
    {
      UnnamedStays(start, events, id);
      EvictedAges(folded, now, id);
    }
    forall k: nat | IsLast(events, k)
      ensures Decides(start, events, k, now, Evicted(folded, now))
    {
      LastDecides(start, events, k);
      EvictedAges(folded, now, events[k].id);
    }
  }

  class Connections {
    var connectionMap: View

    method ApplyEvents(events: seq<Event>, reset: bool, now: int)
      modifies this
      ensures connectionMap == Evicted(FoldAll(if reset then map[] else old(connectionMap), events), now)
      ensures Applied(if reset then map[] else old(connectionMap), events, now, connectionMap)
    {
      if reset {
        connectionMap := map[];
      }
      ghost var before := connectionMap;
      for k := 0 to |events|
        invariant connectionMap == FoldAll(before, events[..k])
      {
        assert events[..k + 1][..k] == events[..k];
        var event := events[k];
        match event {
          case New(id, total, closedAt) =>
            connectionMap := connectionMap[id := Conn(ZERO, total, closedAt)];
          case Update(id, delta) =>
            if id in connectionMap {
              var conn := connectionMap[id];
              connectionMap := connectionMap[id := Conn(delta, Plus(conn.total, delta), conn.closedAt)];
            }
          case Closed(id, at, final) =>
            if final.Some? {
              connectionMap := connectionMap[id := Conn(ZERO, final.value, at)];
            } else if id in connectionMap {
              connectionMap := connectionMap[id := connectionMap[id].(closedAt := at, rate := ZERO)];
            }
        }
      }
      assert events[..|events|] == events;
      EvictClosedConnections(now);
      FoldedIsApplied(before, events, now);
    }

    method EvictClosedConnections(now: int)
      modifies this
      ensures connectionMap == Evicted(old(connectionMap), now)
    {
      var ids := connectionMap.Keys;
      while ids != {}
        invariant forall id | id in connectionMap :: id in old(connectionMap) && connectionMap[id] == old(connectionMap)[id]
        invariant forall id | id in old(connectionMap) && id !in ids :: id in connectionMap <==> id in Evicted(old(connectionMap), now)
        invariant forall id | id in ids :: id in connectionMap
        decreases |ids|
      {
        var id :| id in ids;
        ids := ids - {id};
        if connectionMap[id].closedAt != 0 && now - connectionMap[id].closedAt > MAX_AGE {
          connectionMap := connectionMap - {id};
        }
      }
    }
  }

  // ----- the service

  datatype Snapshot = Snapshot(counters: Counters, hadTraffic: bool)

  /** A connection as the service meets it. The counters are loaded twice, once to be
      remembered and once to be announced, and may have moved in between. */
  datatype Sighting = Sighting(id: Id, now: Counters, announced: Counters)

  predicate Falls(before: Counters, now: Counters) {
    now.up < before.up || now.down < before.down
  }

  // What a tick reports of a connection: nothing if a counter has fallen.
  function Delta(before: Counters, now: Counters): Counters {
    if Falls(before, now) then ZERO else Minus(now, before)
  }

  lemma DeltaMeans(before: Counters, now: Counters)
    ensures Delta(before, now) ==
              if now.up < before.up || now.down < before.down then Counters(0, 0) else Counters(now.up - before.up, now.down - before.down)
  {
  }

  /** A connection over its life: the sighting at which it was announced, then one per
      tick. */
  type Life = seq<Sighting>

  type Lives = map<Id, Life>

  function Latest(life: Life): Counters
    requires life != []
  {
    life[|life| - 1].now
  }

  // The announced totals plus all deltas reported since.
  function Told(life: Life): Counters
    requires life != []
  {
    if |life| == 1 then life[0].announced
    else
      var earlier := life[..|life| - 1];
      Plus(Told(earlier), Delta(Latest(earlier), Latest(life)))
  }

  lemma ToldNext(life: Life, s: Sighting)
    requires life != []
    ensures Latest(life + [s]) == s.now && Told(life + [s]) == Plus(Told(life), Delta(Latest(life), s.now))
  {
    assert (life + [s])[..|life|] == life;
  }

  /** The client follows the service: its totals are what it was told over the life of the
      connection, whose latest counters the service remembers. lost are connections that
      were already closed when they were announced, so that the client does not hold them
      open. */
  ghost predicate Follows(snapshots: map<Id, Snapshot>, client: View, lives: Lives, lost: set<Id>) {
    && lost <= snapshots.Keys <= lives.Keys
    && (forall id | id in snapshots :: lives[id] != [] && snapshots[id].counters == Latest(lives[id]))
    && (forall id | id in client && client[id].closedAt == 0 :: id in snapshots && id !in lost)
    && (forall id | id in snapshots && id !in lost ::
          && IsOpen(client, id)
          && client[id].total == Told(lives[id])
          && (!snapshots[id].hadTraffic ==> client[id].rate == ZERO))
  }

  // Updates are for connections that the client holds open, or that were lost to it.
  ghost predicate UpdatesOpen(client: View, lost: set<Id>, events: seq<Event>) {
    forall k | 0 <= k < |events| && events[k].Update? :: IsOpen(FoldAll(client, events[..k]), events[k].id) || events[k].id in lost
  }

  lemma {:induction false} FoldAllAppend(client: View, es: seq<Event>, es': seq<Event>)
    ensures FoldAll(client, es + es') == FoldAll(FoldAll(client, es), es')
  {
    if es' == [] {
      assert es + es' == es;
    } else {
      FoldAllAppend(client, es, es'[..|es'| - 1]);
      assert (es + es')[..|es + es'| - 1] == es + es'[..|es'| - 1];
    }
  }

  lemma {:induction false} UpdatesOpenAppend(client: View, lost: set<Id>, es: seq<Event>, es': seq<Event>)
    requires UpdatesOpen(client, lost, es) && UpdatesOpen(FoldAll(client, es), lost, es')
    ensures UpdatesOpen(client, lost, es + es')
  {
    forall k | 0 <= k < |es + es'| && (es + es')[k].Update?
      ensures IsOpen(FoldAll(client, (es + es')[..k]), (es + es')[k].id) || (es + es')[k].id in lost
    {
      if k < |es| {
        assert (es + es')[..k] == es[..k];
      } else {
        assert (es + es')[..k] == es + es'[..k - |es|];
        FoldAllAppend(client, es, es'[..k - |es|]);
      }
    }
  }

  // Moving on to another snapshot with an update, and without.
  lemma UpdateKeepsFollows(snapshots: map<Id, Snapshot>, client: View, lives: Lives, lost: set<Id>, s: Sighting, traffic: bool)
    requires Follows(snapshots, client, lives, lost) && s.id in snapshots
    requires !traffic ==> Delta(snapshots[s.id].counters, s.now) == ZERO
    ensures var delta := Delta(snapshots[s.id].counters, s.now);
            && Follows(snapshots[s.id := Snapshot(s.now, traffic)], Fold(client, Update(s.id, delta)),
                       lives[s.id := lives[s.id] + [s]], lost)
            && UpdatesOpen(client, lost, [Update(s.id, delta)])
  {
    ToldNext(lives[s.id], s);
  }

  lemma QuietKeepsFollows(snapshots: map<Id, Snapshot>, client: View, lives: Lives, lost: set<Id>, s: Sighting)
    requires Follows(snapshots, client, lives, lost) && s.id in snapshots && !snapshots[s.id].hadTraffic
    requires Delta(snapshots[s.id].counters, s.now) == ZERO
    ensures Follows(snapshots[s.id := Snapshot(s.now, false)], client, lives[s.id := lives[s.id] + [s]], lost)
  {
    ToldNext(lives[s.id], s);
  }

  // What a tick sends of a known connection: the delta, even if it is zero after one that was not.
  function Report(snapshot: Snapshot, s: Sighting): seq<Event> {
    var delta := Delta(snapshot.counters, s.now);
    if snapshot.hadTraffic || delta != ZERO then [Update(s.id, delta)] else []
  }

  lemma ReportKeepsFollows(snapshots: map<Id, Snapshot>, client: View, lives: Lives, lost: set<Id>, s: Sighting)
    requires Follows(snapshots, client, lives, lost) && s.id in snapshots
    ensures var delta := Delta(snapshots[s.id].counters, s.now);
            var client' := FoldAll(client, Report(snapshots[s.id], s));
            && Follows(snapshots[s.id := Snapshot(s.now, delta != ZERO)], client', lives[s.id := lives[s.id] + [s]], lost)
            && UpdatesOpen(client, lost, Report(snapshots[s.id], s))
            && OnlyChanges(client, client', {s.id})
            && (s.id !in lost ==> s.id in client' && client'[s.id].rate == delta)
  {
    var delta := Delta(snapshots[s.id].counters, s.now);
    if snapshots[s.id].hadTraffic || delta != ZERO {
      UpdateKeepsFollows(snapshots, client, lives, lost, s, delta != ZERO);
      assert [Update(s.id, delta)][..0] == [];
    } else {
      QuietKeepsFollows(snapshots, client, lives, lost, s);
    }
  }

  ghost predicate OnlyChanges(a: View, b: View, ids: set<Id>) {
    forall id: Id | id !in ids :: Same(a, b, id)
  }

  lemma OnlyChangesBoth(a: View, b: View, c: View, ids: set<Id>, id: Id)
    requires OnlyChanges(a, b, ids) && OnlyChanges(b, c, {id})
    ensures OnlyChanges(a, c, ids + {id})
  {
    forall i: Id | i !in ids + {id}
      ensures Same(a, c, i)
    {
      assert Same(a, b, i) && Same(b, c, i);
    }
  }

  // A connection that has ended shows its final totals, or else what the client had been told, and no rate.
  predicate EndsWith(conn: Option<Conn>, at: Moment, final: Option<Counters>, conn': Option<Conn>) {
    if final.Some? then conn' == Some(Conn(Counters(0, 0), final.value, at))
    else if conn.Some? then conn' == Some(Conn(Counters(0, 0), conn.value.total, at))
    else conn' == None
  }

  // The list of closed connections says with what totals, and when, if it has the connection.
  predicate EndsBy(conn: Option<Conn>, id: Id, closedIndex: map<Id, Ended>, now: Moment, conn': Option<Conn>) {
    if id in closedIndex then EndsWith(conn, closedIndex[id].at, Some(closedIndex[id].final), conn')
    else EndsWith(conn, now, None, conn')
  }

  predicate Fate(before: View, after: View, over: set<Id>, closedIndex: map<Id, Ended>, now: Moment, id: Id) {
    if id in over then EndsBy(Entry(before, id), id, closedIndex, now, Entry(after, id)) else Same(before, after, id)
  }

  // Exactly these connections have ended.
  ghost predicate Concluded(before: View, after: View, over: set<Id>, closedIndex: map<Id, Ended>, now: Moment) {
    forall id: Id :: Fate(before, after, over, closedIndex, now, id)
  }

  lemma ConcludedNext(before: View, mid: View, after: View, over: set<Id>, closedIndex: map<Id, Ended>, now: Moment, id: Id)
    requires Concluded(before, mid, over, closedIndex, now) && id !in over
    requires EndsBy(Entry(mid, id), id, closedIndex, now, Entry(after, id)) && OnlyChanges(mid, after, {id})
    ensures Concluded(before, after, over + {id}, closedIndex, now)
  {
    forall i: Id
      ensures Fate(before, after, over + {id}, closedIndex, now, i)
    {
      assert Fate(before, mid, over, closedIndex, now, i);
      assert i != id ==> Same(mid, after, i);
    }
  }

  class Stream {
    var snapshots: map<Id, Snapshot>
    ghost var client: View
    ghost var lives: Lives
    ghost var lost: set<Id>

    ghost predicate Valid()
      reads this
    {
      Follows(snapshots, client, lives, lost)
    }

    // The client receives an event.
    ghost method Send(e: Event)
      modifies this`client
      ensures client == Fold(old(client), e) == FoldAll(old(client), [e])
    {
      client := Fold(client, e);
      assert [e][..0] == [];
    }

    // The service has seen a connection for the first time.
    method Announce(s: Sighting) returns (event: Event)
      requires Valid() && s.id !in snapshots
      modifies this
      ensures Valid() && lost == old(lost)
      ensures event == New(s.id, s.announced, 0) && client == FoldAll(old(client), [event])
      ensures snapshots == old(snapshots)[s.id := Snapshot(s.now, false)]
      ensures lives == old(lives)[s.id := [s]]
      ensures Entry(client, s.id) == Some(Conn(Counters(0, 0), s.announced, 0)) && OnlyChanges(old(client), client, {s.id})
    {
      snapshots := snapshots[s.id := Snapshot(s.now, false)];
      lives := lives[s.id := [s]];
      event := New(s.id, s.announced, 0);
      Send(event);
    }

    // One known connection in a tick.
    method Observe(s: Sighting) returns (events: seq<Event>)
      requires Valid() && s.id in snapshots
      modifies this
      ensures Valid() && lost == old(lost)
      ensures events == Report(old(snapshots)[s.id], s) && client == FoldAll(old(client), events)
      ensures UpdatesOpen(old(client), lost, events)
      ensures snapshots == old(snapshots)[s.id := Snapshot(s.now, Delta(old(snapshots)[s.id].counters, s.now) != ZERO)]
      ensures lives == old(lives)[s.id := old(lives)[s.id] + [s]]
      ensures OnlyChanges(old(client), client, {s.id})
      ensures s.id !in lost ==> s.id in client && client[s.id].rate == Delta(old(snapshots)[s.id].counters, s.now)
    {
      ReportKeepsFollows(snapshots, client, lives, lost, s);
      var snapshot := snapshots[s.id];
      var delta := Minus(s.now, snapshot.counters);
      events := [];
      if delta.up < 0 || delta.down < 0 {
        if snapshot.hadTraffic {
          events := [Update(s.id, ZERO)];
        }
        snapshots := snapshots[s.id := Snapshot(s.now, false)];
      } else if delta.up > 0 || delta.down > 0 {
        snapshots := snapshots[s.id := Snapshot(s.now, true)];
        events := [Update(s.id, delta)];
      } else if snapshot.hadTraffic {
        snapshots := snapshots[s.id := Snapshot(s.now, false)];
        events := [Update(s.id, ZERO)];
      } else {
        assert snapshots[s.id := Snapshot(s.now, false)] == snapshots;
      }
      client := FoldAll(client, events);
      lives := lives[s.id := lives[s.id] + [s]];
    }

    // The service forgets a connection, and says so.
    method Conclude(id: Id, at: Moment, final: Option<Counters>) returns (event: Event)
      requires Valid()
      modifies this
      ensures Valid() && lost == old(lost) - {id} && lives == old(lives)
      ensures event == Closed(id, at, final) && client == FoldAll(old(client), [event])
      ensures snapshots == old(snapshots) - {id}
      ensures EndsWith(Entry(old(client), id), at, final, Entry(client, id)) && OnlyChanges(old(client), client, {id})
    {
      snapshots := snapshots - {id};
      lost := lost - {id};
      event := Closed(id, at, final);
      Send(event);
    }

    method AnnounceNext(active: seq<Sighting>, k: nat) returns (event: Event)
      requires Valid() && lost == {} && Distinct(active) && k < |active|
      requires snapshots.Keys == Ids(active[..k]) && JustSeen(snapshots, lives, active, k)
      modifies this
      ensures Valid() && lost == {} && client == FoldAll(old(client), [event]) && event == New(active[k].id, active[k].announced, 0)
      ensures snapshots.Keys == Ids(active[..k + 1]) && JustSeen(snapshots, lives, active, k + 1)
    {
      assert active[k].id !in Ids(active[..k]);
      event := Announce(active[k]);
      IdsOfNext(active, k);
    }

    method AnnounceAll(active: seq<Sighting>) returns (events: seq<Event>)
      requires Valid() && Distinct(active) && snapshots == map[] && client == map[] && lost == {}
      modifies this
      ensures Valid() && lost == {} && client == FoldAll(map[], events) && events == Announcements(active)
      ensures snapshots.Keys == Ids(active) && JustSeen(snapshots, lives, active, |active|)
    {
      events := [];
      for k := 0 to |active|
        invariant Valid() && lost == {} && client == FoldAll(map[], events) && events == Announcements(active[..k])
        invariant snapshots.Keys == Ids(active[..k]) && JustSeen(snapshots, lives, active, k)
      {
        var event := AnnounceNext(active, k);
        FoldAllAppend(map[], events, [event]);
        AnnouncedNext(active, k);
        events := events + [event];
      }
      assert active[..|active|] == active;
    }

    method AnnounceEnd(e: Ended) returns (event: Event)
      requires Valid()
      modifies this`client, this`lost
      ensures Valid() && lost == old(lost) + {e.id} * snapshots.Keys
      ensures event == New(e.id, e.final, e.at) && client == FoldAll(old(client), [event])
      ensures Entry(client, e.id) == Some(Conn(Counters(0, 0), e.final, e.at)) && OnlyChanges(old(client), client, {e.id})
    {
      event := New(e.id, e.final, e.at);
      Send(event);
      lost := lost + {e.id} * snapshots.Keys;
    }

    // Connections that are over, announced as such.
    method AnnounceEnded(closed: seq<Ended>) returns (events: seq<Event>)
      requires Valid() && lost == {}
      modifies this`client, this`lost
      ensures Valid() && lost == snapshots.Keys * EndedIds(closed) && client == FoldAll(old(client), events)
      ensures events == Endings(closed) && ShowsEnded(client, closed)
    {
      events := [];
      for k := 0 to |closed|
        invariant Valid() && lost == snapshots.Keys * EndedIds(closed[..k]) && client == FoldAll(old(client), events)
        invariant events == Endings(closed[..k]) && ShowsEnded(client, closed[..k])
      {
        ghost var mid := client;
        var event := AnnounceEnd(closed[k]);
        ShowsNext(mid, client, closed, k);
        FoldAllAppend(old(client), events, [event]);
        events := events + [event];
        EndedNext(closed, k);
      }
      assert closed[..|closed|] == closed;
    }

    // The client starts afresh.
    method BuildInitialConnectionState(active: seq<Sighting>, closed: seq<Ended>) returns (events: seq<Event>)
      requires Distinct(active)
      modifies this
      ensures Valid() && client == FoldAll(map[], events) && events == Announcements(active) + Endings(closed)
      ensures snapshots.Keys == Ids(active) && lost == Ids(active) * EndedIds(closed)
      ensures JustSeen(snapshots, lives, active, |active|) && ShowsEnded(client, closed)
      ensures forall i | 0 <= i < |active| && active[i].id !in EndedIds(closed) ::
                Entry(client, active[i].id) == Some(Conn(Counters(0, 0), active[i].announced, 0))
    {
      snapshots, client, lives, lost := map[], map[], map[], {};
      var announced := AnnounceAll(active);
      var ended := AnnounceEnded(closed);
      FoldAllAppend(map[], announced, ended);
      events := announced + ended;
    }

    method ApplyConnectionEvent(notice: Notice) returns (event: Option<Event>)
      requires Valid()
      modifies this
      ensures Valid() && lost <= old(lost)
      ensures client == FoldAll(old(client), if event.Some? then [event.value] else [])
      ensures event.None? <==> notice.Other? || (notice.Joined? && notice.s.id in old(snapshots))
      ensures match notice
              case Joined(s) =>
                if s.id in old(snapshots) then unchanged(this) && event.None?
                else
                  && snapshots == old(snapshots)[s.id := Snapshot(s.now, false)] && lives == old(lives)[s.id := [s]]
                  && Entry(client, s.id) == Some(Conn(Counters(0, 0), s.announced, 0)) && OnlyChanges(old(client), client, {s.id})
              case Left(id, at, final) =>
                && snapshots == old(snapshots) - {id} && lives == old(lives)
                && EndsWith(Entry(old(client), id), at, final, Entry(client, id)) && OnlyChanges(old(client), client, {id})
              case Other => unchanged(this)
      ensures event.Some? ==> !event.value.Update?
    {
      event := None;
      match notice {
        case Joined(s) =>
          if s.id !in snapshots {
            var new' := Announce(s);
            event := Some(new');
          }
        case Left(id, at, final) =>
          var closed := Conclude(id, at, final);
          event := Some(closed);
        case Other =>
      }
    }

    // One active connection in a tick.
    method See(s: Sighting) returns (events: seq<Event>)
      requires Valid()
      modifies this
      ensures Valid() && lost == old(lost)
      ensures client == FoldAll(old(client), events) && UpdatesOpen(old(client), lost, events)
      ensures snapshots.Keys == old(snapshots).Keys + {s.id}
      ensures Ticked(old(snapshots), old(lives), snapshots, lives, client, lost, s)
      ensures OthersKept(old(snapshots), old(lives), old(client), snapshots, lives, client, s.id)
      ensures OnlyChanges(old(client), client, {s.id})
    {
      if s.id !in snapshots {
        var event := Announce(s);
        events := [event];
      } else {
        events := Observe(s);
      }
    }

    method SeeNext(active: seq<Sighting>, k: nat, ghost before: map<Id, Snapshot>, ghost lives0: Lives)
      returns (events: seq<Event>)
      requires Valid() && Distinct(active) && k < |active| && before.Keys <= lives0.Keys
      requires TickedUpTo(before, lives0, snapshots, lives, client, lost, active, k)
      modifies this
      ensures Valid() && lost == old(lost)
      ensures client == FoldAll(old(client), events) && UpdatesOpen(old(client), lost, events)
      ensures TickedUpTo(before, lives0, snapshots, lives, client, lost, active, k + 1)
      ensures OnlyChanges(old(client), client, {active[k].id})
    {
      assert active[k].id !in Ids(active[..k]);
      events := See(active[k]);
      IdsOfNext(active, k);
      TickedNext(before, lives0, old(snapshots), old(lives), old(client), snapshots, lives, client, lost, active, k);
    }

    method SeeAll(active: seq<Sighting>) returns (events: seq<Event>)
      requires Valid() && Distinct(active)
      modifies this
      ensures Valid() && lost == old(lost)
      ensures client == FoldAll(old(client), events) && UpdatesOpen(old(client), lost, events)
      ensures TickedUpTo(old(snapshots), old(lives), snapshots, lives, client, lost, active, |active|)
      ensures snapshots.Keys == old(snapshots).Keys + Ids(active) && OnlyChanges(old(client), client, Ids(active))
    {
      events := [];
      for k := 0 to |active|
        invariant Valid() && lost == old(lost)
        invariant client == FoldAll(old(client), events) && UpdatesOpen(old(client), lost, events)
        invariant TickedUpTo(old(snapshots), old(lives), snapshots, lives, client, lost, active, k)
        invariant OnlyChanges(old(client), client, Ids(active[..k]))
      {
        ghost var mid := client;
        var more := SeeNext(active, k, old(snapshots), old(lives));
        OnlyChangesBoth(old(client), mid, client, Ids(active[..k]), active[k].id);
        IdsOfNext(active, k);
        FoldAllAppend(old(client), events, more);
        UpdatesOpenAppend(old(client), lost, events, more);
        events := events + more;
      }
      assert active[..|active|] == active;
    }

    // The list of closed connections says when and with what totals, if it has the connection.
    method ConcludeFrom(id: Id, closedIndex: map<Id, Ended>, now: Moment) returns (event: Event)
      requires Valid()
      modifies this
      ensures Valid() && lost == old(lost) - {id} && lives == old(lives)
      ensures event == Closing(id, closedIndex, now) && client == FoldAll(old(client), [event])
      ensures snapshots == old(snapshots) - {id}
      ensures EndsBy(Entry(old(client), id), id, closedIndex, now, Entry(client, id)) && OnlyChanges(old(client), client, {id})
    {
      if id in closedIndex {
        event := Conclude(id, closedIndex[id].at, Some(closedIndex[id].final));
      } else {
        event := Conclude(id, now, None);
      }
    }

    method ConcludeNext(id: Id, ghost ids: set<Id>, activeIndex: set<Id>, closedIndex: map<Id, Ended>, now: Moment,
                        ghost before: map<Id, Snapshot>, ghost lost0: set<Id>, ghost client0: View)
      returns (event: Event)
      requires Valid() && Winnowed(before, snapshots, lost0, lost, activeIndex, ids) && id in before && id in ids && id !in activeIndex
      requires Concluded(client0, client, Over(before, activeIndex, ids), closedIndex, now)
      modifies this
      ensures Valid() && lives == old(lives)
      ensures event == Closing(id, closedIndex, now) && client == FoldAll(old(client), [event])
      ensures Winnowed(before, snapshots, lost0, lost, activeIndex, ids - {id})
      ensures Concluded(client0, client, Over(before, activeIndex, ids - {id}), closedIndex, now)
    {
      event := ConcludeFrom(id, closedIndex, now);
      ConcludedNext(client0, old(client), client, Over(before, activeIndex, ids), closedIndex, now, id);
      OverNext(before, activeIndex, ids, id);
    }

    // Whatever is no longer active is over.
    method ConcludeInactive(activeIndex: set<Id>, closedIndex: map<Id, Ended>, now: Moment) returns (events: seq<Event>)
      requires Valid()
      modifies this
      ensures Valid() && lost == old(lost) * activeIndex && lives == old(lives)
      ensures client == FoldAll(old(client), events)
      ensures Closings(events, closedIndex, now)
      ensures snapshots == old(snapshots) - (old(snapshots).Keys - activeIndex)
      ensures Concluded(old(client), client, old(snapshots).Keys - activeIndex, closedIndex, now)
    {
      events := [];
      var ids := snapshots.Keys;
      NoneIsOver(client, snapshots, activeIndex, closedIndex, now);
      while ids != {}
        invariant Valid() && lives == old(lives) && client == FoldAll(old(client), events)
        invariant Closings(events, closedIndex, now)
        invariant Winnowed(old(snapshots), snapshots, old(lost), lost, activeIndex, ids)
        invariant Concluded(old(client), client, Over(old(snapshots), activeIndex, ids), closedIndex, now)
        invariant ids <= old(snapshots).Keys
        decreases |ids|
      {
        var id :| id in ids;
        if id in activeIndex {
          WinnowedActive(old(snapshots), snapshots, old(lost), lost, activeIndex, ids, id);
        } else {
          var event := ConcludeNext(id, ids, activeIndex, closedIndex, now, old(snapshots), old(lost), old(client));
          FoldAllAppend(old(client), events, [event]);
          ClosingNext(events, event, closedIndex, now);
          events := events + [event];
        }
        ids := ids - {id};
      }
      WinnowedAll(old(snapshots), snapshots, old(lost), lost, activeIndex);
    }

    /** A tick. Afterwards the service remembers exactly the active connections, as they
        were seen, each sighting added to the life of its connection; the client holds open
        those of them that are not lost, its totals are what it was told over that life,
        and its rates are what passed since the last tick. Of a connection that is over it
        shows the totals that the list of closed ones has, or else what it had been told
        over its life, and no rate. */
    method BuildTrafficUpdates(active: seq<Sighting>, closed: seq<Ended>, now: Moment) returns (events: seq<Event>)
      requires Valid() && Distinct(active)
      modifies this
      ensures Valid() && snapshots.Keys == Ids(active) && lost == old(lost) * Ids(active)
      ensures client == FoldAll(old(client), events) && UpdatesOpen(old(client), old(lost), events)
      ensures forall i | 0 <= i < |active| :: Ticked(old(snapshots), old(lives), snapshots, lives, client, lost, active[i])
      ensures forall id: Id | id !in Ids(active) :: Outlives(old(snapshots), old(lives), old(lost), old(client), closed, now, id, Entry(client, id))
    {
      var updates := SeeAll(active);
      ghost var mid, seen := snapshots, client;
      var closedIndex := Index(closed);
      var over := ConcludeInactive(Ids(active), closedIndex, now);
      TickDone(old(snapshots), old(lives), mid, lives, seen, old(lost), snapshots, client, active, closedIndex, now);
      OverIsOver(old(snapshots), old(lives), old(lost), old(client), seen, client, active, closed, closedIndex, now);
      FoldAllAppend(old(client), updates, over);
      UpdatesOpenAppend(old(client), old(lost), updates, over);
      events := updates + over;
    }
  }

  // Of the connections before, those are left that are active or still to be looked at.
  predicate Winnowed(before: map<Id, Snapshot>, after: map<Id, Snapshot>, lost0: set<Id>, lost: set<Id>, activeIndex: set<Id>, ids: set<Id>) {
    var winnowed :=
      && lost0 <= before.Keys
      && lost == lost0 * after.Keys
      && after == map id | id in before && (id in activeIndex || id in ids) :: before[id];
    winnowed
  }

  lemma WinnowedActive(before: map<Id, Snapshot>, after: map<Id, Snapshot>, lost0: set<Id>, lost: set<Id>, activeIndex: set<Id>, ids: set<Id>, id: Id)
    requires Winnowed(before, after, lost0, lost, activeIndex, ids) && id in activeIndex
    ensures Winnowed(before, after, lost0, lost, activeIndex, ids - {id})
    ensures Over(before, activeIndex, ids - {id}) == Over(before, activeIndex, ids)
  {
  }

  // Of the connections before, those that are over and have been looked at.
  function Over(before: map<Id, Snapshot>, activeIndex: set<Id>, ids: set<Id>): set<Id> {
    before.Keys - activeIndex - ids
  }

  lemma OverNext(before: map<Id, Snapshot>, activeIndex: set<Id>, ids: set<Id>, id: Id)
    requires id in before && id in ids && id !in activeIndex
    ensures Over(before, activeIndex, ids - {id}) == Over(before, activeIndex, ids) + {id}
  {
  }

  lemma NoneIsOver(client: View, before: map<Id, Snapshot>, activeIndex: set<Id>, closedIndex: map<Id, Ended>, now: Moment)
    ensures Concluded(client, client, Over(before, activeIndex, before.Keys), closedIndex, now)
  {
  }

  lemma WinnowedAll(before: map<Id, Snapshot>, after: map<Id, Snapshot>, lost0: set<Id>, lost: set<Id>, activeIndex: set<Id>)
    requires Winnowed(before, after, lost0, lost, activeIndex, {})
    ensures after == before - (before.Keys - activeIndex) && lost == lost0 * activeIndex
    ensures Over(before, activeIndex, {}) == before.Keys - activeIndex
  {
  }

  ghost predicate TickedUpTo(before: map<Id, Snapshot>, lives: Lives,
                             after: map<Id, Snapshot>, lives': Lives, client: View, lost: set<Id>, active: seq<Sighting>, n: nat)
    requires before.Keys <= lives.Keys && n <= |active|
  {
    && (forall i | 0 <= i < n :: Ticked(before, lives, after, lives', client, lost, active[i]))
    && Untouched(before, lives, after, lives', Ids(active[..n]))
  }

  // Nothing is new but what was seen, and the rest is as before.
  predicate Untouched(before: map<Id, Snapshot>, lives: Lives, after: map<Id, Snapshot>, lives': Lives, seen: set<Id>)
    requires before.Keys <= lives.Keys
  {
    && after.Keys == before.Keys + seen
    && forall id | id in before && id !in seen :: after[id] == before[id] && id in lives' && lives'[id] == lives[id]
  }

  lemma UntouchedNext(before: map<Id, Snapshot>, lives: Lives, mid: map<Id, Snapshot>, lives': Lives, client: View,
                      after: map<Id, Snapshot>, lives'': Lives, client': View, seen: set<Id>, id: Id)
    requires before.Keys <= lives.Keys && Untouched(before, lives, mid, lives', seen)
    requires after.Keys == mid.Keys + {id} && OthersKept(mid, lives', client, after, lives'', client', id)
    ensures Untouched(before, lives, after, lives'', seen + {id})
  {
  }

  lemma TickedNext(before: map<Id, Snapshot>, lives: Lives,
                   mid: map<Id, Snapshot>, lives': Lives, client: View,
                   after: map<Id, Snapshot>, lives'': Lives, client': View, lost: set<Id>, active: seq<Sighting>, k: nat)
    requires before.Keys <= lives.Keys && mid.Keys <= lives'.Keys && k < |active| && Distinct(active)
    requires TickedUpTo(before, lives, mid, lives', client, lost, active, k)
    requires after.Keys == mid.Keys + {active[k].id} && Ticked(mid, lives', after, lives'', client', lost, active[k])
    requires OthersKept(mid, lives', client, after, lives'', client', active[k].id)
    ensures TickedUpTo(before, lives, after, lives'', client', lost, active, k + 1)
  {
    IdsOfNext(active, k);
    UntouchedNext(before, lives, mid, lives', client, after, lives'', client', Ids(active[..k]), active[k].id);
    forall i | 0 <= i < k + 1
      ensures Ticked(before, lives, after, lives'', client', lost, active[i])
    {
      if i < k {
        StillTicked(before, lives, mid, lives', client, after, lives'', client', lost, active[i], active[k].id);
      } else {
        TickedFirst(before, lives, mid, lives', after, lives'', client', lost, active, k);
      }
    }
  }

  lemma StillTicked(before: map<Id, Snapshot>, lives: Lives,
                    mid: map<Id, Snapshot>, lives': Lives, client: View,
                    after: map<Id, Snapshot>, lives'': Lives, client': View, lost: set<Id>, s: Sighting, id: Id)
    requires before.Keys <= lives.Keys && s.id != id
    requires Ticked(before, lives, mid, lives', client, lost, s) && OthersKept(mid, lives', client, after, lives'', client', id)
    ensures Ticked(before, lives, after, lives'', client', lost, s)
  {
  }

  // A connection that was not seen earlier in the tick is as it was before.
  lemma TickedFirst(before: map<Id, Snapshot>, lives: Lives, mid: map<Id, Snapshot>, lives': Lives,
                    after: map<Id, Snapshot>, lives'': Lives, client': View, lost: set<Id>, active: seq<Sighting>, k: nat)
    requires before.Keys <= lives.Keys && mid.Keys <= lives'.Keys && k < |active| && Distinct(active)
    requires Untouched(before, lives, mid, lives', Ids(active[..k]))
    requires Ticked(mid, lives', after, lives'', client', lost, active[k])
    ensures Ticked(before, lives, after, lives'', client', lost, active[k])
  {
    assert active[k].id !in Ids(active[..k]);
    assert active[k].id in mid <==> active[k].id in before;
  }

  lemma TickDone(before: map<Id, Snapshot>, lives: Lives,
                 mid: map<Id, Snapshot>, lives': Lives, client: View, lost: set<Id>,
                 after: map<Id, Snapshot>, client': View, active: seq<Sighting>, closedIndex: map<Id, Ended>, now: Moment)
    requires before.Keys <= lives.Keys
    requires TickedUpTo(before, lives, mid, lives', client, lost, active, |active|)
    requires after == mid - (mid.Keys - Ids(active))
    requires Concluded(client, client', mid.Keys - Ids(active), closedIndex, now)
    ensures after.Keys == Ids(active)
    ensures forall i | 0 <= i < |active| :: Ticked(before, lives, after, lives', client', lost * Ids(active), active[i])
  {
    assert active[..|active|] == active;
    forall i | 0 <= i < |active|
      ensures Ticked(before, lives, after, lives', client', lost * Ids(active), active[i])
    {
      assert active[i] in active && active[i].id in Ids(active);
      assert Fate(client, client', mid.Keys - Ids(active), closedIndex, now, active[i].id);
      assert Ticked(before, lives, mid, lives', client, lost, active[i]);
    }
  }

  // Closed connection k is the last of its id in the list.
  predicate EndsLast(closed: seq<Ended>, k: nat) {
    k < |closed| && forall l | k < l < |closed| :: closed[l].id != closed[k].id
  }

  // The closed connections by id, the last of each.
  ghost predicate Indexed(closed: seq<Ended>, index: map<Id, Ended>) {
    && index.Keys == EndedIds(closed)
    && forall k: nat | EndsLast(closed, k) :: closed[k].id in index && index[closed[k].id] == closed[k]
  }

  method Index(closed: seq<Ended>) returns (index: map<Id, Ended>)
    ensures Indexed(closed, index)
  {
    index := map[];
    for k := 0 to |closed|
      invariant Indexed(closed[..k], index)
    {
      IndexedNext(closed, k, index);
      index := index[closed[k].id := closed[k]];
    }
    assert closed[..|closed|] == closed;
  }

  lemma LastEarlier(closed: seq<Ended>, k: nat, l: nat)
    requires k < |closed| && l < k && EndsLast(closed[..k + 1], l)
    ensures EndsLast(closed[..k], l) && closed[..k][l] == closed[..k + 1][l] && closed[k].id != closed[l].id
  {
    assert closed[..k + 1][k] == closed[k];
    forall m | l < m < k
      ensures closed[..k][m].id != closed[..k][l].id
    {
      assert closed[..k + 1][m] == closed[..k][m];
    }
  }

  lemma IndexedNext(closed: seq<Ended>, k: nat, index: map<Id, Ended>)
    requires k < |closed| && Indexed(closed[..k], index)
    ensures Indexed(closed[..k + 1], index[closed[k].id := closed[k]])
  {
    var c, index' := closed[..k + 1], index[closed[k].id := closed[k]];
    EndedNext(closed, k);
    forall l: nat | EndsLast(c, l)
      ensures c[l].id in index' && index'[c[l].id] == c[l]
    {
      if l < k {
        LastEarlier(closed, k, l);
      }
    }
  }

  // Connections that have ended are shown with their final totals, and no rate.
  ghost predicate ShowsEnded(client: View, closed: seq<Ended>) {
    forall k: nat | EndsLast(closed, k) :: Entry(client, closed[k].id) == Some(Conn(Counters(0, 0), closed[k].final, closed[k].at))
  }

  lemma ShowsNext(before: View, after: View, closed: seq<Ended>, k: nat)
    requires k < |closed| && ShowsEnded(before, closed[..k]) && OnlyChanges(before, after, {closed[k].id})
    requires Entry(after, closed[k].id) == Some(Conn(Counters(0, 0), closed[k].final, closed[k].at))
    ensures ShowsEnded(after, closed[..k + 1])
  {
    var c := closed[..k + 1];
    forall l: nat | EndsLast(c, l)
      ensures Entry(after, c[l].id) == Some(Conn(Counters(0, 0), c[l].final, c[l].at))
    {
      if l < k {
        LastEarlier(closed, k, l);
        assert Same(before, after, c[l].id);
      }
    }
  }

  // What a tick makes of a connection that is not active: it has ended if it was remembered, and else nothing happens to it.
  ghost predicate Outlives(before: map<Id, Snapshot>, lives: Lives, lost: set<Id>, client: View, closed: seq<Ended>, now: Moment, id: Id, conn: Option<Conn>)
    requires before.Keys <= lives.Keys && forall i | i in before :: lives[i] != []
  {
    if id !in before then conn == Entry(client, id)
    else
      && (forall k: nat | EndsLast(closed, k) && closed[k].id == id :: conn == Some(Conn(Counters(0, 0), closed[k].final, closed[k].at)))
      && ((forall k | 0 <= k < |closed| :: closed[k].id != id) ==>
            if id !in lost then conn == Some(Conn(Counters(0, 0), Told(lives[id]), now))
            else EndsWith(Entry(client, id), now, None, conn))
  }

  lemma OverIsOver(before: map<Id, Snapshot>, lives: Lives, lost: set<Id>, client: View, seen: View, client': View,
                   active: seq<Sighting>, closed: seq<Ended>, closedIndex: map<Id, Ended>, now: Moment)
    requires Follows(before, client, lives, lost) && OnlyChanges(client, seen, Ids(active))
    requires Indexed(closed, closedIndex) && Concluded(seen, client', before.Keys + Ids(active) - Ids(active), closedIndex, now)
    ensures forall id: Id | id !in Ids(active) :: Outlives(before, lives, lost, client, closed, now, id, Entry(client', id))
  {
    forall id: Id | id !in Ids(active)
      ensures Outlives(before, lives, lost, client, closed, now, id, Entry(client', id))
    {
      assert Same(client, seen, id);
      assert Fate(seen, client', before.Keys + Ids(active) - Ids(active), closedIndex, now, id);
      assert id in closedIndex ==> exists e | e in closed :: e.id == id;
    }
  }

  // What a tick makes of an active connection; before and lives are from before the tick.
  ghost predicate Ticked(before: map<Id, Snapshot>, lives: Lives,
                         after: map<Id, Snapshot>, lives': Lives, client: View, lost: set<Id>, s: Sighting)
    requires before.Keys <= lives.Keys
  {
    && s.id in after && s.id in lives'
    && after[s.id].counters == s.now
    && lives'[s.id] == (if s.id in before then lives[s.id] else []) + [s]
    && (s.id !in lost ==>
          && s.id in client
          && client[s.id].rate == if s.id in before then Delta(before[s.id].counters, s.now) else ZERO)
  }

  ghost predicate OthersKept(snapshots: map<Id, Snapshot>, lives: Lives, client: View,
                             snapshots': map<Id, Snapshot>, lives': Lives, client': View, id: Id)
  {
    && (forall i | i in snapshots && i != id :: i in snapshots' && snapshots'[i] == snapshots[i])
    && (forall i | i in lives && i != id :: i in lives' && lives'[i] == lives[i])
    && (forall i | i in client && i != id :: i in client' && client'[i] == client[i])
  }

  datatype Ended = Ended(id: Id, final: Counters, at: Moment)

  // What the traffic manager tells of.
  datatype Notice = Joined(s: Sighting) | Left(id: Id, at: Moment, final: Option<Counters>) | Other

  function Ids(active: seq<Sighting>): set<Id> {
    set s | s in active :: s.id
  }

  function EndedIds(closed: seq<Ended>): set<Id> {
    set e | e in closed :: e.id
  }

  // The active connections are the values of a map.
  predicate Distinct(active: seq<Sighting>) {
    forall i, j | 0 <= i < j < |active| :: active[i].id != active[j].id
  }

  predicate JustSeen(snapshots: map<Id, Snapshot>, lives: Lives, active: seq<Sighting>, n: nat)
    requires n <= |active|
  {
    forall i | 0 <= i < n ::
      && active[i].id in snapshots && active[i].id in lives
      && snapshots[active[i].id] == Snapshot(active[i].now, false)
      && lives[active[i].id] == [active[i]]
  }

  function Closing(id: Id, closedIndex: map<Id, Ended>, now: Moment): (e: Event)
    ensures e.Closed? && e.id == id
  {
    if id in closedIndex then Closed(id, closedIndex[id].at, Some(closedIndex[id].final)) else Closed(id, now, None)
  }

  predicate Closings(events: seq<Event>, closedIndex: map<Id, Ended>, now: Moment) {
    forall k | 0 <= k < |events| :: events[k].Closed? && events[k] == Closing(events[k].id, closedIndex, now)
  }

  lemma ClosingNext(events: seq<Event>, event: Event, closedIndex: map<Id, Ended>, now: Moment)
    requires Closings(events, closedIndex, now) && event == Closing(event.id, closedIndex, now)
    ensures Closings(events + [event], closedIndex, now)
  {
  }

  lemma AnnouncedNext(active: seq<Sighting>, k: nat)
    requires k < |active|
    ensures Announcements(active[..k + 1]) == Announcements(active[..k]) + [New(active[k].id, active[k].announced, 0)]
  {
    assert active[..k + 1] == active[..k] + [active[k]];
  }

  lemma EndedNext(closed: seq<Ended>, k: nat)
    requires k < |closed|
    ensures EndedIds(closed[..k + 1]) == EndedIds(closed[..k]) + {closed[k].id}
    ensures Endings(closed[..k + 1]) == Endings(closed[..k]) + [New(closed[k].id, closed[k].final, closed[k].at)]
  {
    assert closed[..k + 1] == closed[..k] + [closed[k]];
  }

  function Announcements(active: seq<Sighting>): seq<Event> {
    seq(|active|, i requires 0 <= i < |active| => New(active[i].id, active[i].announced, 0))
  }

  function Endings(closed: seq<Ended>): seq<Event> {
    seq(|closed|, i requires 0 <= i < |closed| => New(closed[i].id, closed[i].final, closed[i].at))
  }

  lemma IdsOfNext(active: seq<Sighting>, k: nat)
    requires k < |active|
    ensures Ids(active[..k + 1]) == Ids(active[..k]) + {active[k].id}
  {
    assert active[..k + 1] == active[..k] + [active[k]];
  }

  // ----- what the client can rely on

  function OpenIds(client: View): set<Id> {
    set id | id in client && client[id].closedAt == 0
  }

  /** The client's open connections are those the service remembers, but for the lost
      ones: exactly those if nothing was announced both as active and as closed. */
  lemma OpenIsRemembered(snapshots: map<Id, Snapshot>, client: View, lives: Lives, lost: set<Id>)
    requires Follows(snapshots, client, lives, lost)
    ensures OpenIds(client) == snapshots.Keys - lost
    ensures OpenIds(client) == snapshots.Keys <==> lost == {}
  {
    assert OpenIds(client) == snapshots.Keys - lost;
    if lost != {} {
      var id :| id in lost;
      assert id in snapshots.Keys && id !in OpenIds(client);
    }
  }

  // By how much a client is off: the two loads at the announcement, and what falling counters took back.
  function Drift(life: Life): Counters
    requires life != []
  {
    if |life| == 1 then Minus(life[0].announced, life[0].now)
    else
      var earlier := life[..|life| - 1];
      Plus(Drift(earlier), if Falls(Latest(earlier), Latest(life)) then Minus(Latest(earlier), Latest(life)) else ZERO)
  }

  predicate NeverFalls(life: Life)
    requires life != []
  {
    |life| == 1 ||
    var earlier := life[..|life| - 1];
    NeverFalls(earlier) && !Falls(Latest(earlier), Latest(life))
  }

  lemma {:induction false} ToldIsDrift(life: Life)
    requires life != []
    ensures Told(life) == Plus(Latest(life), Drift(life))
  {
    if |life| > 1 {
      ToldIsDrift(life[..|life| - 1]);
    }
  }

  lemma {:induction false} DriftOfSteady(life: Life)
    requires life != [] && NeverFalls(life)
    ensures Drift(life) == Minus(life[0].announced, life[0].now)
  {
    if |life| > 1 {
      DriftOfSteady(life[..|life| - 1]);
    }
  }

  lemma OffByDrift(counters: Counters, drift: Counters)
    ensures Plus(counters, drift) == counters <==> drift == ZERO
  {
  }

  // Whatever the counters do, a total is what was seen last plus the drift, and so is right iff there is none.
  lemma {:induction false} TotalIsRight(snapshots: map<Id, Snapshot>, client: View, lives: Lives, lost: set<Id>, id: Id)
    requires Follows(snapshots, client, lives, lost) && id in snapshots && id !in lost
    ensures IsOpen(client, id) && client[id].total == Plus(snapshots[id].counters, Drift(lives[id]))
    ensures client[id].total == snapshots[id].counters <==> Drift(lives[id]) == ZERO
  {
    ToldIsDrift(lives[id]);
    OffByDrift(snapshots[id].counters, Drift(lives[id]));
  }

  lemma EqualLoads(now: Counters, announced: Counters)
    ensures Minus(announced, now) == ZERO <==> announced == now
  {
  }

  lemma SteadyIsRight(life: Life)
    requires life != [] && NeverFalls(life)
    ensures Drift(life) == ZERO <==> life[0].announced == life[0].now
  {
    DriftOfSteady(life);
    EqualLoads(life[0].now, life[0].announced);
  }

  /** At every moment of a stream: a connection whose counters never fell has a total, the
      announced one plus all deltas, equal to the counters last seen exactly if the two
      loads at its announcement agreed. */
  lemma {:induction false} TotalsAreExact(snapshots: map<Id, Snapshot>, client: View, lives: Lives, lost: set<Id>, id: Id)
    requires Follows(snapshots, client, lives, lost) && id in snapshots && id !in lost && NeverFalls(lives[id])
    ensures IsOpen(client, id)
    ensures client[id].total == snapshots[id].counters <==> lives[id][0].announced == lives[id][0].now
  {
    TotalIsRight(snapshots, client, lives, lost, id);
    SteadyIsRight(lives[id]);
  }

  // ----- where a client is misled

  // A connection that leaves between the two lists is remembered, but not held open.
  lemma LostAtTheStart()
    ensures var seen, over := Sighting(1, Counters(5, 0), Counters(5, 0)), Ended(1, Counters(5, 0), 7);
            var client := FoldAll(map[], Announcements([seen]) + Endings([over]));
            1 in Ids([seen]) && 1 in client && !IsOpen(client, 1)
  {
    var seen, over := Sighting(1, Counters(5, 0), Counters(5, 0)), Ended(1, Counters(5, 0), 7);
    var events := Announcements([seen]) + Endings([over]);
    assert seen in [seen];
    assert events == [New(1, seen.announced, 0), New(1, over.final, over.at)];
    assert events[..1] == [events[0]] && events[..1][..0] == [];
  }

  // Two bytes that pass between the two loads are missing from the total for good.
  lemma UnequalLoads()
    ensures var first, later := Sighting(1, Counters(5, 0), Counters(3, 0)), Sighting(1, Counters(9, 0), Counters(9, 0));
            var client := FoldAll(map[], Announcements([first]) + [Update(1, Delta(first.now, later.now))]);
            && NeverFalls([first, later])
            && IsOpen(client, 1) && client[1].total == Counters(7, 0) == Told([first, later]) && client[1].total != later.now
  {
    var first, later := Sighting(1, Counters(5, 0), Counters(3, 0)), Sighting(1, Counters(9, 0), Counters(9, 0));
    var events := Announcements([first]) + [Update(1, Delta(first.now, later.now))];
    assert events == [New(1, first.announced, 0), Update(1, Counters(4, 0))];
    assert events[..1] == [events[0]] && events[..1][..0] == [];
    assert [first, later][..1] == [first];
  }
}
