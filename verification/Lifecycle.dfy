/** Starting, reloading, closing and failing a service. Any number of calls interleave;
    one step is one section under the service mutex, one acquisition or release of the
    lifecycle mutex, or one call into an instance. */
module Lifecycle {
  import opened Wrappers

  type Id = nat

  datatype Status = IDLE | STARTING | STARTED | STOPPING | FATAL

  datatype Call = StartOrReloadService | CloseService | SetError | Close

  datatype At =
    | Begin                           // before interrupting a start; for SetError and Close, before the only section
    | Waiting                         // for the lifecycle mutex
    | Locked
    | Closing(id: Id, reload: bool)   // closing the instance that was current; reload: to start another
    | Closed(reload: bool, empty: bool) // empty: there was no instance to close
    | Creating
    | CreateFailed
    | Created(id: Id)
    | Starting(id: Id)
    | StartReturned(id: Id, ok: bool)
    | Discarding(id: Id)              // closing an instance that was not started, or is not wanted
    | Leaving                         // about to release the lifecycle mutex
    | Done

  /** What the mutexes protect. closes says, for every instance ever created, how often
      it has been closed. */
  datatype Service = Service(status: Status, instance: Option<Id>, interrupted: bool, closed: bool, closes: seq<nat>)

  datatype Thread = Thread(call: Call, at: At)

  // What a call came to.
  datatype Outcome =
    | TurnedAway
    | StartedUp
    | FailedStart
    | Interrupted
    | ClosedDown
    | ClosedOver // closed a service without an instance, over an error reported meanwhile
    | Errored

  datatype Deed = Deed(thread: nat, outcome: Outcome)

  // log: what calls have come to, in an order in which they could have been made one after the other.
  datatype State = State(service: Service, holder: Option<nat>, threads: seq<Thread>, log: seq<Deed>)

  const IDLE_SERVICE := Service(IDLE, None, false, false, [])

  predicate Init(s: State) {
    && s.service == IDLE_SERVICE && s.holder.None? && s.log == []
    && forall t | 0 <= t < |s.threads| :: s.threads[t].at == Begin
  }

  // ----- steps

  function CloseInstance(v: Service, id: Id): Service {
    if id < |v.closes| then v.(closes := v.closes[id := v.closes[id] + 1]) else v
  }

  function InterruptStart(v: Service): Service {
    if v.status == STARTING && v.instance.Some? then v.(interrupted := true) else v
  }

  function BeginCall(v: Service, call: Call): (Service, At) {
    match call
    case SetError => (v.(status := FATAL), Done)
    case Close => (v.(closed := true), Done)
    case _ => (InterruptStart(v), Waiting)
  }

  function BeginStarting(v: Service): (Service, At) {
    (v.(interrupted := false, status := STARTING), Creating)
  }

  function EnterStart(v: Service): (Service, At) {
    if v.closed then (v, Leaving)
    else if v.instance.Some? then (v.(instance := None, status := STOPPING), Closing(v.instance.value, true))
    else BeginStarting(v)
  }

  function EnterClose(v: Service): (Service, At) {
    if v.instance.None? && v.status != STARTING && v.status != STARTED then (v, Leaving)
    else (v.(instance := None, status := STOPPING),
          if v.instance.Some? then Closing(v.instance.value, false) else Closed(false, true))
  }

  function FinishStart(v: Service, id: Id, ok: bool): (Service, At) {
    if v.interrupted then (v.(interrupted := false, instance := None), Discarding(id))
    else if !ok then (v.(instance := None, status := FATAL), Discarding(id))
    else (v.(status := STARTED), Leaving)
  }

  // What a call does next; ok is how a call into an instance ends, if this is one.
  function Act(v: Service, call: Call, at: At, ok: bool): (Service, At) {
    match at
    case Begin => BeginCall(v, call)
    case Waiting => (v, Locked)
    case Locked => if call == StartOrReloadService then EnterStart(v) else EnterClose(v)
    case Closing(id, reload) => (CloseInstance(v, id), Closed(reload, false))
    case Closed(reload, _) => if reload then BeginStarting(v) else (v.(status := IDLE), Leaving)
    case Creating => if ok then (v.(closes := v.closes + [0]), Created(|v.closes|)) else (v, CreateFailed)
    case CreateFailed => (v.(status := FATAL), Leaving)
    case Created(id) => (v.(instance := Some(id)), Starting(id))
    case Starting(id) => (v, StartReturned(id, ok))
    case StartReturned(id, started) => FinishStart(v, id, started)
    case Discarding(id) => (CloseInstance(v, id), Leaving)
    case Leaving => (v, Done)
    case Done => (v, Done)
  }

  // The step at which it is settled what the call comes to.
  function Settles(v: Service, call: Call, at: At): Option<Outcome> {
    match at
    case Begin => if call == SetError then Some(Errored) else None
    case Locked =>
      if call == StartOrReloadService then (if v.closed then Some(TurnedAway) else None)
      else if EnterClose(v).1 == Leaving then Some(ClosedDown) else None
    case Closed(reload, empty) => if reload then None else Some(if empty && v.status == FATAL then ClosedOver else ClosedDown)
    case CreateFailed => Some(FailedStart)
    case StartReturned(_, ok) => Some(if v.interrupted then Interrupted else if ok then StartedUp else FailedStart)
    case _ => None
  }

  // An interrupted start counts as made before the error that was reported meanwhile, anything else as made last.
  function Place(log: seq<Deed>, outcome: Outcome, status: Status): (p: nat)
    ensures p <= |log|
  {
    if outcome == Interrupted && status == FATAL && log != [] then |log| - 1 else |log|
  }

  function Record(log: seq<Deed>, deed: Deed, status: Status): (r: seq<Deed>)
    ensures deed.outcome != Interrupted || status != FATAL ==> r == log + [deed]
  {
    var p := Place(log, deed.outcome, status);
    log[..p] + [deed] + log[p..]
  }

  predicate Enabled(s: State, t: nat) {
    t < |s.threads| && s.threads[t].at != Done && (s.threads[t].at == Waiting ==> s.holder.None?)
  }

  function Next(s: State, t: nat, ok: bool): State
    requires Enabled(s, t)
  {
    var Thread(call, at) := s.threads[t];
    var (service, at') := Act(s.service, call, at, ok);
    var holder := if at == Waiting then Some(t) else if at == Leaving then None else s.holder;
    var settled := Settles(s.service, call, at);
    State(service, holder, s.threads[t := Thread(call, at')],
          if settled.Some? then Record(s.log, Deed(t, settled.value), s.service.status) else s.log)
  }

  // ----- what every step keeps

  predicate HoldsLock(at: At) {
    !at.Begin? && !at.Waiting? && !at.Done?
  }

  predicate Pending(at: At) {
    at.Waiting? || at.Locked?
  }

  predicate SomePending(s: State) {
    exists t | 0 <= t < |s.threads| :: Pending(s.threads[t].at)
  }

  // A start that has come to something.
  predicate Past(thread: Thread) {
    thread.call == StartOrReloadService && (thread.at.Discarding? || thread.at.Leaving? || thread.at.Done?)
  }

  predicate OnePast(s: State) {
    exists t | 0 <= t < |s.threads| :: Past(s.threads[t])
  }

  predicate TwoPast(s: State) {
    exists t, u | 0 <= t < u < |s.threads| :: Past(s.threads[t]) && Past(s.threads[u])
  }

  /** Why a service that nobody is starting may still say STARTING: a start gave way to a
      call that is yet to enter, or that found the service shut down. */
  predicate GaveWay(s: State) {
    OnePast(s) && (SomePending(s) || (s.service.closed && TwoPast(s)))
  }

  // An instance that a call holds on to while it is not, or no longer, current.
  function Carried(at: At): Option<Id> {
    match at
    case Closing(id, _) => Some(id)
    case Created(id) => Some(id)
    case Discarding(id) => Some(id)
    case _ => None
  }

  // The one instance that has been created and not closed, when the mutex holder is at the given place.
  function Live(v: Service, at: At): Option<Id> {
    if v.instance.Some? then v.instance else Carried(at)
  }

  predicate StatusWell(v: Service, at: At, pending: bool, gaveWay: bool) {
    match at
    case Closing(_, _) => v.instance.None? && !v.interrupted && (v.status == STOPPING || v.status == FATAL)
    case Closed(_, _) => v.instance.None? && !v.interrupted && (v.status == STOPPING || v.status == FATAL)
    case Creating => v.instance.None? && !v.interrupted && (v.status == STARTING || v.status == FATAL)
    case CreateFailed => v.instance.None? && !v.interrupted && (v.status == STARTING || v.status == FATAL)
    case Created(_) => v.instance.None? && !v.interrupted && (v.status == STARTING || v.status == FATAL)
    case Starting(id) => v.instance == Some(id) && (v.status == STARTING || v.status == FATAL) && (v.interrupted ==> pending)
    case StartReturned(id, _) => v.instance == Some(id) && (v.status == STARTING || v.status == FATAL) && (v.interrupted ==> pending)
    case Discarding(_) => v.instance.None? && !v.interrupted && (v.status == FATAL || (v.status == STARTING && gaveWay))
    case _ =>
      && !v.interrupted
      && match v.status
         case IDLE => v.instance.None?
         case STARTED => v.instance.Some?
         case STARTING => v.instance.None? && gaveWay
         case STOPPING => false
         case FATAL => true
  }

  // Every instance but the live one has been closed exactly once.
  predicate InstancesWell(v: Service, at: At) {
    && (Live(v, at).Some? ==> Live(v, at).value < |v.closes|)
    && forall id | 0 <= id < |v.closes| :: v.closes[id] == if Live(v, at) == Some(id) then 0 else 1
  }

  lemma InsideKeepsStatus(v: Service, call: Call, at: At, ok: bool, pending: bool, gaveWay: bool, pending': bool, gaveWay': bool)
    requires HoldsLock(at) && (call == StartOrReloadService || call == CloseService) && StatusWell(v, at, pending, gaveWay)
    requires pending && at != Locked ==> pending'
    requires gaveWay && (at != Locked || (v.closed && call == StartOrReloadService)) ==> gaveWay'
    requires v.interrupted && pending && at.StartReturned? ==> gaveWay'
    ensures var (v', at') := Act(v, call, at, ok); StatusWell(v', at', pending', gaveWay')
  {
  }

  lemma LiveIsClosed(v: Service, at: At, at': At)
    requires InstancesWell(v, at) && v.instance.None? && Carried(at).Some? && Carried(at').None?
    ensures InstancesWell(CloseInstance(v, Carried(at).value), at')
  {
  }

  lemma LiveIsCreated(v: Service, at: At)
    requires InstancesWell(v, at) && v.instance.None? && Carried(at).None?
    ensures InstancesWell(v.(closes := v.closes + [0]), Created(|v.closes|))
  {
  }

  lemma InsideKeepsInstances(v: Service, call: Call, at: At, ok: bool, pending: bool, gaveWay: bool)
    requires HoldsLock(at) && StatusWell(v, at, pending, gaveWay) && InstancesWell(v, at)
    ensures var (v', at') := Act(v, call, at, ok); InstancesWell(v', at')
  {
    var (v', at') := Act(v, call, at, ok);
    if at.Closing? || at.Discarding? {
      LiveIsClosed(v, at, at');
    } else if at.Creating? && ok {
      LiveIsCreated(v, at);
    } else {
      assert v'.closes == v.closes && Live(v', at') == Live(v, at);
    }
  }

  // Interrupting, failing or shutting down while the mutex is held at the given place, or free.
  lemma OutsideKeepsStatus(v: Service, call: Call, at: At, pending: bool, gaveWay: bool, pending': bool, gaveWay': bool)
    requires StatusWell(v, at, pending, gaveWay) && !at.Begin? && !at.Waiting?
    requires (pending ==> pending') && (gaveWay ==> gaveWay')
    requires call == StartOrReloadService || call == CloseService ==> pending'
    ensures StatusWell(BeginCall(v, call).0, at, pending', gaveWay')
    ensures InstancesWell(v, at) ==> InstancesWell(BeginCall(v, call).0, at)
    ensures call == SetError ==> BeginCall(v, call) == (Service(FATAL, v.instance, v.interrupted, v.closed, v.closes), Done)
    ensures call == Close ==> BeginCall(v, call) == (Service(v.status, v.instance, v.interrupted, true, v.closes), Done)
    ensures call == StartOrReloadService || call == CloseService ==>
              BeginCall(v, call) == (Service(v.status, v.instance, v.interrupted || (v.status == STARTING && v.instance.Some?), v.closed, v.closes), Waiting)
  {
  }

  function HolderAt(s: State): At {
    if s.holder.Some? && s.holder.value < |s.threads| then s.threads[s.holder.value].at else Done
  }

  // The places of a call.
  predicate Belongs(call: Call, at: At) {
    match call
    case StartOrReloadService => !(at.Closing? && !at.reload) && !(at.Closed? && !at.reload)
    case CloseService =>
      || at.Begin? || at.Waiting? || at.Locked? || at.Leaving? || at.Done?
      || (at.Closing? && !at.reload) || (at.Closed? && !at.reload)
    case _ => at.Begin? || at.Done?
  }

  // Exactly the holder is where the mutex is needed.
  predicate ThreadWell(s: State, t: nat)
    requires t < |s.threads|
  {
    (HoldsLock(s.threads[t].at) <==> s.holder == Some(t)) && Belongs(s.threads[t].call, s.threads[t].at)
  }

  predicate Well(s: State) {
    && (s.holder.Some? ==> s.holder.value < |s.threads|)
    && (forall t | 0 <= t < |s.threads| :: ThreadWell(s, t))
    && StatusWell(s.service, HolderAt(s), SomePending(s), GaveWay(s))
    && InstancesWell(s.service, HolderAt(s))
    && (s.service.closed ==> exists t | 0 <= t < |s.threads| :: s.threads[t].call == Close)
  }

  lemma HolderHolds(s: State)
    requires Well(s)
    ensures if s.holder.Some? then HoldsLock(HolderAt(s)) else HolderAt(s) == Done
  {
    if s.holder.Some? {
      assert ThreadWell(s, s.holder.value);
    }
  }

  predicate OnlyMoves(s: State, s': State, t: nat) {
    && |s'.threads| == |s.threads| && t < |s.threads|
    && s'.threads[t].call == s.threads[t].call
    && forall u | 0 <= u < |s.threads| && u != t :: s'.threads[u] == s.threads[u]
  }

  lemma StillPending(s: State, s': State, t: nat)
    requires OnlyMoves(s, s', t)
    ensures SomePending(s) && !Pending(s.threads[t].at) ==> SomePending(s')
    ensures Pending(s'.threads[t].at) ==> SomePending(s')
  {
    if SomePending(s) && !Pending(s.threads[t].at) {
      var u :| 0 <= u < |s.threads| && Pending(s.threads[u].at);
      assert Pending(s'.threads[u].at);
    }
  }

  lemma StillPast(s: State, s': State, t: nat)
    requires OnlyMoves(s, s', t) && (Past(s.threads[t]) ==> Past(s'.threads[t]))
    ensures OnePast(s) ==> OnePast(s')
    ensures TwoPast(s) ==> TwoPast(s')
    ensures Past(s'.threads[t]) ==> OnePast(s')
    ensures Past(s'.threads[t]) && !Past(s.threads[t]) && OnePast(s) ==> TwoPast(s')
  {
    if OnePast(s) {
      var u :| 0 <= u < |s.threads| && Past(s.threads[u]);
      assert Past(s'.threads[u]);
      if Past(s'.threads[t]) && !Past(s.threads[t]) {
        assert if u < t then Past(s'.threads[u]) && Past(s'.threads[t]) else Past(s'.threads[t]) && Past(s'.threads[u]);
      }
    }
    if TwoPast(s) {
      var u, w :| 0 <= u < w < |s.threads| && Past(s.threads[u]) && Past(s.threads[w]);
      assert Past(s'.threads[u]) && Past(s'.threads[w]);
    }
  }

  lemma StepKeepsThreads(s: State, t: nat, ok: bool, u: nat)
    requires Enabled(s, t) && Well(s) && u < |s.threads|
    ensures ThreadWell(Next(s, t, ok), u)
  {
    assert ThreadWell(s, t) && ThreadWell(s, u);
  }

  // A step that is not an entry keeps the reason for STARTING, and so does being turned away.
  lemma StepKeepsGaveWay(s: State, t: nat, ok: bool)
    requires Enabled(s, t) && Well(s)
    ensures var s' := Next(s, t, ok); var Thread(call, at) := s.threads[t];
            && OnlyMoves(s, s', t)
            && (SomePending(s) && at != Locked ==> SomePending(s'))
            && (at == Begin && (call == StartOrReloadService || call == CloseService) ==> SomePending(s'))
            && (GaveWay(s) && (at != Locked || (s.service.closed && call == StartOrReloadService)) ==> GaveWay(s'))
            && (SomePending(s) && at.StartReturned? && s.service.interrupted ==> GaveWay(s'))
  {
    var s' := Next(s, t, ok);
    assert ThreadWell(s, t);
    StillPending(s, s', t);
    StillPast(s, s', t);
  }

  lemma StepKeepsWell(s: State, t: nat, ok: bool)
    requires Enabled(s, t) && Well(s)
    ensures Well(Next(s, t, ok)) && OnlyMoves(s, Next(s, t, ok), t)
  {
    var s' := Next(s, t, ok);
    var Thread(call, at) := s.threads[t];
    forall u | 0 <= u < |s'.threads|
      ensures ThreadWell(s', u)
    {
      StepKeepsThreads(s, t, ok, u);
    }
    assert ThreadWell(s, t);
    StepKeepsGaveWay(s, t, ok);
    StepKeepsService(s, t, ok);
    if s'.service.closed {
      var u :| 0 <= u < |s.threads| && s.threads[u].call == Close;
      assert s'.threads[u].call == Close;
    }
  }

  lemma StepKeepsService(s: State, t: nat, ok: bool)
    requires Enabled(s, t) && Well(s)
    ensures var s' := Next(s, t, ok);
            StatusWell(s'.service, HolderAt(s'), SomePending(s'), GaveWay(s')) && InstancesWell(s'.service, HolderAt(s'))
  {
    var s' := Next(s, t, ok);
    var Thread(call, at) := s.threads[t];
    assert ThreadWell(s, t);
    StepKeepsGaveWay(s, t, ok);
    if HoldsLock(at) {
      InsideKeepsStatus(s.service, call, at, ok, SomePending(s), GaveWay(s), SomePending(s'), GaveWay(s'));
      InsideKeepsInstances(s.service, call, at, ok, SomePending(s), GaveWay(s));
    } else if at == Begin {
      HolderHolds(s);
      OutsideKeepsStatus(s.service, call, HolderAt(s), SomePending(s), GaveWay(s), SomePending(s'), GaveWay(s'));
    }
  }

  // ----- whole runs

  datatype Move = Move(thread: nat, ok: bool)

  predicate IsMove(s: State, m: Move, s': State) {
    Enabled(s, m.thread) && s' == Next(s, m.thread, m.ok)
  }

  ghost predicate Run(states: seq<State>, moves: seq<Move>) {
    && |states| == |moves| + 1
    && Init(states[0])
    && forall k {:trigger moves[k]} | 0 <= k < |moves| :: IsMove(states[k], moves[k], states[k + 1])
  }

  predicate SameCalls(s: State, s': State) {
    |s'.threads| == |s.threads| && forall t | 0 <= t < |s.threads| :: s'.threads[t].call == s.threads[t].call
  }

  lemma {:induction false} RunKeepsWell(states: seq<State>, moves: seq<Move>, k: nat)
    requires Run(states, moves) && k < |states|
    ensures Well(states[k]) && SameCalls(states[0], states[k])
  {
    if k > 0 {
      RunKeepsWell(states, moves, k - 1);
      assert IsMove(states[k - 1], moves[k - 1], states[k]);
      StepKeepsWell(states[k - 1], moves[k - 1].thread, moves[k - 1].ok);
    }
  }

  // How many of the instances ever created have not been closed.
  function Unclosed(closes: seq<nat>): nat {
    if closes == [] then 0 else Unclosed(closes[1..]) + if closes[0] == 0 then 1 else 0
  }

  lemma {:induction false} UnclosedBound(closes: seq<nat>, id: nat)
    requires forall k | 0 <= k < |closes| && k != id :: closes[k] != 0
    ensures Unclosed(closes) == if id < |closes| && closes[id] == 0 then 1 else 0
  {
    if closes != [] {
      assert forall k | 0 <= k < |closes| - 1 :: closes[1..][k] == closes[k + 1];
      UnclosedBound(closes[1..], if id == 0 then |closes| else id - 1);
    }
  }

  /** At any moment of any run: a STARTED service has an instance, an IDLE one has none,
      at most one instance has been created and not closed, and none has been closed
      twice; only the current instance, or the one in the hands of the call that holds
      the lifecycle mutex, is still to be closed. */
  lemma LifecycleSafety(states: seq<State>, moves: seq<Move>, k: nat)
    requires Run(states, moves) && k < |states|
    ensures var s := states[k]; var v := s.service;
            && (v.status == STARTED ==> v.instance.Some?)
            && (v.status == IDLE ==> v.instance.None?)
            && (v.instance.Some? ==> v.instance.value < |v.closes| && v.closes[v.instance.value] == 0)
            && Unclosed(v.closes) <= 1
            && forall id | 0 <= id < |v.closes| :: v.closes[id] <= 1 && (v.closes[id] == 0 <==> Live(v, HolderAt(s)) == Some(id))
  {
    RunKeepsWell(states, moves, k);
    var s := states[k];
    HolderHolds(s);
    var live := Live(s.service, HolderAt(s));
    UnclosedBound(s.service.closes, if live.Some? then live.value else 0);
  }

  // ----- errors from outside

  lemma StepWritesStatus(s: State, t: nat, ok: bool)
    requires Enabled(s, t) && Well(s)
    ensures s.service.status == FATAL && Next(s, t, ok).service.status != FATAL ==>
              s.holder == Some(t) && (s.threads[t].at.Locked? || s.threads[t].at.Closed? || s.threads[t].at.StartReturned?)
  {
    assert ThreadWell(s, t);
  }

  /** A reported error makes the service FATAL and changes nothing else; it stays FATAL
      until the call that holds the lifecycle mutex begins to close or to start an
      instance, ends closing, or has started one. */
  lemma {:induction false} ErrorIsReported(states: seq<State>, moves: seq<Move>, k: nat, n: nat)
    requires Run(states, moves) && k < n < |states|
    requires moves[k].thread < |states[k].threads| && states[k].threads[moves[k].thread].call == SetError
    ensures var v := states[k].service; states[k + 1].service == Service(FATAL, v.instance, v.interrupted, v.closed, v.closes)
    ensures states[n].service.status == FATAL || exists m | k < m < n :: Rewrites(states[m], moves[m], states[m + 1])
  {
    RunKeepsWell(states, moves, k);
    assert IsMove(states[k], moves[k], states[k + 1]);
    assert ThreadWell(states[k], moves[k].thread);
    if n > k + 1 {
      ErrorIsReported(states, moves, k, n - 1);
      RunKeepsWell(states, moves, n - 1);
      assert IsMove(states[n - 1], moves[n - 1], states[n]);
      StepWritesStatus(states[n - 1], moves[n - 1].thread, moves[n - 1].ok);
      assert states[n - 1].service.status == FATAL && states[n].service.status != FATAL ==> Rewrites(states[n - 1], moves[n - 1], states[n]);
    }
  }

  // The holder of the lifecycle mutex moves, and the service is no longer FATAL.
  predicate Rewrites(s: State, m: Move, s': State) {
    && m.thread < |s.threads| && s.holder == Some(m.thread)
    && (s.threads[m.thread].at.Locked? || s.threads[m.thread].at.Closed? || s.threads[m.thread].at.StartReturned?)
    && s.service.status == FATAL && s'.service.status != FATAL
  }

  // ----- every run ends, with the service at rest

  function Rank(at: At): nat {
    match at
    case Done => 0
    case Leaving => 1
    case Discarding(_) => 2
    case CreateFailed => 2
    case StartReturned(_, _) => 3
    case Starting(_) => 4
    case Created(_) => 5
    case Creating => 6
    case Closed(_, _) => 7
    case Closing(_, _) => 8
    case Locked => 9
    case Waiting => 10
    case Begin => 11
  }

  function TotalRank(threads: seq<Thread>): nat {
    if threads == [] then 0 else Rank(threads[0].at) + TotalRank(threads[1..])
  }

  lemma {:induction false} RankOfUpdate(threads: seq<Thread>, t: nat, thread: Thread)
    requires t < |threads|
    ensures TotalRank(threads[t := thread]) == TotalRank(threads) - Rank(threads[t].at) + Rank(thread.at)
  {
    if t > 0 {
      RankOfUpdate(threads[1..], t - 1, thread);
      assert threads[t := thread][1..] == threads[1..][t - 1 := thread];
    } else {
      assert threads[t := thread][1..] == threads[1..];
    }
  }

  lemma {:induction false} RankBound(threads: seq<Thread>)
    ensures TotalRank(threads) <= 11 * |threads|
  {
    if threads != [] {
      RankBound(threads[1..]);
    }
  }

  lemma MoveLowersRank(s: State, m: Move, s': State)
    requires IsMove(s, m, s')
    ensures TotalRank(s'.threads) < TotalRank(s.threads)
  {
    RankOfUpdate(s.threads, m.thread, s'.threads[m.thread]);
  }

  lemma {:induction false} RunIsShort(states: seq<State>, moves: seq<Move>, k: nat)
    requires Run(states, moves) && k < |states|
    ensures k + TotalRank(states[k].threads) <= 11 * |states[0].threads|
  {
    if k == 0 {
      RankBound(states[0].threads);
    } else {
      RunIsShort(states, moves, k - 1);
      MoveLowersRank(states[k - 1], moves[k - 1], states[k]);
    }
  }

  // The mutex never keeps every call waiting.
  lemma CanMove(s: State) returns (t: nat)
    requires Well(s) && exists t | 0 <= t < |s.threads| :: s.threads[t].at != Done
    ensures Enabled(s, t)
  {
    t :| t < |s.threads| && s.threads[t].at != Done;
    if s.holder.Some? {
      t := s.holder.value;
      assert ThreadWell(s, t);
    }
  }

  /** Every run is finite and can go on until all calls have returned. Then the mutex is
      free and no interruption is left over; the service is not STOPPING, and is left
      STARTING only if it was shut down; and every instance has been closed exactly
      once, except the current one, which has not. */
  lemma EveryRunSettles(states: seq<State>, moves: seq<Move>)
    requires Run(states, moves)
    ensures |moves| <= 11 * |states[0].threads|
    ensures var s := states[|moves|]; var v := s.service;
            || (exists t :: Enabled(s, t))
            || (&& AllReturned(s)
                && s.holder.None? && !v.interrupted
                && v.status != STOPPING && (v.status == STARTING ==> v.closed && v.instance.None?)
                && forall id | 0 <= id < |v.closes| :: v.closes[id] == if v.instance == Some(id) then 0 else 1)
  {
    var s := states[|moves|];
    RunIsShort(states, moves, |moves|);
    RunKeepsWell(states, moves, |moves|);
    if !AllReturned(s) {
      var t := CanMove(s);
    } else {
      HolderHolds(s);
    }
  }

  predicate AllReturned(s: State) {
    forall t | 0 <= t < |s.threads| :: s.threads[t].at == Done
  }

  // ----- as if one call after the other

  // Where the service stands between calls.
  datatype Rest = Rest(status: Status, running: bool)

  predicate ToBeClosed(r: Rest) {
    r.running || r.status == STARTING || r.status == STARTED
  }

  // A call on its own, given what a start comes to.
  function After(r: Rest, outcome: Outcome): Rest {
    match outcome
    case TurnedAway => r
    case StartedUp => Rest(STARTED, true)
    case FailedStart => Rest(FATAL, false)
    case Interrupted => Rest(STARTING, false)
    case ClosedDown => if ToBeClosed(r) then Rest(IDLE, false) else r
    case ClosedOver => if ToBeClosed(r) then Rest(IDLE, false) else r
    case Errored => Rest(FATAL, r.running)
  }

  function AfterAll(log: seq<Deed>): Rest {
    if log == [] then Rest(IDLE, false) else After(AfterAll(log[..|log| - 1]), log[|log| - 1].outcome)
  }

  // An error was closed over, and nothing has been started or reported since.
  predicate Lost(log: seq<Deed>) {
    log != [] &&
    match log[|log| - 1].outcome
    case ClosedOver => true
    case ClosedDown => Lost(log[..|log| - 1])
    case TurnedAway => Lost(log[..|log| - 1])
    case _ => false
  }

  predicate Erring(log: seq<Deed>) {
    log != [] && log[|log| - 1].outcome == Errored
  }

  lemma RecordedLast(log: seq<Deed>, deed: Deed)
    ensures AfterAll(log + [deed]) == After(AfterAll(log), deed.outcome)
    ensures Lost(log + [deed]) <==> deed.outcome == ClosedOver || ((deed.outcome == ClosedDown || deed.outcome == TurnedAway) && Lost(log))
    ensures Erring(log + [deed]) <==> deed.outcome == Errored
  {
    assert (log + [deed])[..|log|] == log;
  }

  /** In the middle of a call the status is that of the call, or an error was reported
      last; between calls it is what the calls so far add up to, unless an error was lost. */
  predicate Tracks(v: Service, at: At, log: seq<Deed>) {
    var r := AfterAll(log);
    match at
    case Closing(_, reload) => (v.status == STOPPING || Erring(log)) && (!reload ==> r.running && !Lost(log))
    case Closed(reload, empty) =>
      && (v.status == STOPPING || Erring(log))
      && (!reload ==> !Lost(log))
      && (!reload ==> if !empty then r.running else if v.status == STOPPING then ToBeClosed(r) && !r.running else r == Rest(FATAL, false))
    case Creating => v.status == STARTING || Erring(log)
    case CreateFailed => v.status == STARTING || Erring(log)
    case Created(_) => v.status == STARTING || Erring(log)
    case Starting(_) => v.status == STARTING || Erring(log)
    case StartReturned(_, _) => v.status == STARTING || Erring(log)
    case _ =>
      if Lost(log) then v.status == IDLE && v.instance.None? && r == Rest(FATAL, false)
      else r == Rest(v.status, v.instance.Some?)
  }

  lemma InterruptedTracks(v: Service, at: At, ok: bool, log: seq<Deed>, t: nat)
    requires at.StartReturned? && v.interrupted && Tracks(v, at, log) && (v.status == STARTING || v.status == FATAL)
    ensures var (v', at') := Act(v, StartOrReloadService, at, ok); Tracks(v', at', Record(log, Deed(t, Interrupted), v.status))
  {
    var deed := Deed(t, Interrupted);
    if v.status == FATAL {
      var before, error := log[..|log| - 1], log[|log| - 1];
      assert Record(log, deed, FATAL) == before + [deed] + [error];
      RecordedLast(before, deed);
      RecordedLast(before + [deed], error);
    } else {
      RecordedLast(log, deed);
    }
  }

  lemma EntryTracks(v: Service, call: Call, log: seq<Deed>)
    requires (call == StartOrReloadService || call == CloseService) && Tracks(v, Locked, log)
    ensures var (v', at') := Act(v, call, Locked, true); at' != Leaving ==> Tracks(v', at', log)
  {
  }

  lemma InsideTracks(v: Service, call: Call, at: At, ok: bool, pending: bool, gaveWay: bool, log: seq<Deed>, t: nat)
    requires HoldsLock(at) && Belongs(call, at) && StatusWell(v, at, pending, gaveWay) && Tracks(v, at, log)
    ensures var (v', at') := Act(v, call, at, ok); var settled := Settles(v, call, at);
            Tracks(v', at', if settled.Some? then Record(log, Deed(t, settled.value), v.status) else log)
  {
    var settled := Settles(v, call, at);
    if at.StartReturned? && v.interrupted {
      InterruptedTracks(v, at, ok, log, t);
    } else if settled.Some? {
      RecordedLast(log, Deed(t, settled.value));
    } else if at == Locked {
      EntryTracks(v, call, log);
    }
  }

  lemma OutsideTracks(v: Service, call: Call, at: At, log: seq<Deed>, t: nat)
    requires Tracks(v, at, log)
    ensures Tracks(BeginCall(v, call).0, at, if call == SetError then log + [Deed(t, Errored)] else log)
  {
    RecordedLast(log, Deed(t, Errored));
  }

  lemma StepTracks(s: State, t: nat, ok: bool)
    requires Enabled(s, t) && Well(s) && Tracks(s.service, HolderAt(s), s.log)
    ensures var s' := Next(s, t, ok); Tracks(s'.service, HolderAt(s'), s'.log)
  {
    var Thread(call, at) := s.threads[t];
    assert ThreadWell(s, t);
    HolderHolds(s);
    if HoldsLock(at) {
      InsideTracks(s.service, call, at, ok, SomePending(s), GaveWay(s), s.log, t);
    } else if at == Begin {
      OutsideTracks(s.service, call, HolderAt(s), s.log, t);
    }
  }

  lemma {:induction false} RunTracks(states: seq<State>, moves: seq<Move>, k: nat)
    requires Run(states, moves) && k < |states|
    ensures Tracks(states[k].service, HolderAt(states[k]), states[k].log)
  {
    if k > 0 {
      RunTracks(states, moves, k - 1);
      RunKeepsWell(states, moves, k - 1);
      assert IsMove(states[k - 1], moves[k - 1], states[k]);
      StepTracks(states[k - 1], moves[k - 1].thread, moves[k - 1].ok);
    }
  }

  // Whether a call has come to something.
  predicate Decided(thread: Thread) {
    match thread.call
    case SetError => thread.at.Done?
    case Close => false
    case _ => thread.at.Discarding? || thread.at.Leaving? || thread.at.Done?
  }

  // What a call can come to: closing closes, an error is an error, and only a start of a service that is shut down is turned away.
  predicate Fits(s: State, deed: Deed)
    requires deed.thread < |s.threads|
  {
    && (deed.outcome == ClosedDown || deed.outcome == ClosedOver <==> s.threads[deed.thread].call == CloseService)
    && (deed.outcome == Errored <==> s.threads[deed.thread].call == SetError)
    && (deed.outcome == TurnedAway ==> s.service.closed)
  }

  // Every decided call is in the log, once, with an outcome of its own kind.
  predicate Logged(s: State) {
    && (forall k | 0 <= k < |s.log| :: s.log[k].thread < |s.threads| && Decided(s.threads[s.log[k].thread]))
    && (forall k | 0 <= k < |s.log| :: Fits(s, s.log[k]))
    && Once(s.log)
    && (forall t | 0 <= t < |s.threads| && Decided(s.threads[t]) :: InLog(s.log, t))
  }

  predicate InLog(log: seq<Deed>, t: nat) {
    exists k | 0 <= k < |log| :: log[k].thread == t
  }

  // A step leaves the log alone, or puts in, once, a call that it decides.
  lemma LogGrows(s: State, t: nat, ok: bool)
    requires Enabled(s, t) && Well(s)
    ensures var s' := Next(s, t, ok);
            && |s'.threads| == |s.threads|
            && (forall u | 0 <= u < |s.threads| && u != t :: s'.threads[u] == s.threads[u])
            && (s.service.closed ==> s'.service.closed)
            && (Settles(s.service, s.threads[t].call, s.threads[t].at).Some? <==> !Decided(s.threads[t]) && Decided(s'.threads[t]))
            && (Decided(s.threads[t]) ==> Decided(s'.threads[t]))
  {
    assert ThreadWell(s, t);
  }

  lemma NewDeedFits(s: State, t: nat, ok: bool)
    requires Enabled(s, t) && Well(s)
    ensures var settled := Settles(s.service, s.threads[t].call, s.threads[t].at);
            settled.Some? ==> Fits(Next(s, t, ok), Deed(t, settled.value))
  {
    assert ThreadWell(s, t);
  }

  lemma StepLogsDeed(s: State, t: nat, ok: bool, k: nat)
    requires Enabled(s, t) && Well(s) && Logged(s) && k < |Next(s, t, ok).log|
    ensures var s' := Next(s, t, ok);
            s'.log[k].thread < |s'.threads| && Decided(s'.threads[s'.log[k].thread]) && Fits(s', s'.log[k])
  {
    var s' := Next(s, t, ok);
    LogGrows(s, t, ok);
    NewDeedFits(s, t, ok);
    if l: nat :| l < |s.log| && s.log[l] == s'.log[k] {
      assert Fits(s, s.log[l]) && Decided(s.threads[s.log[l].thread]);
    }
  }

  lemma InsertedInLog(log: seq<Deed>, p: nat, deed: Deed, t: nat)
    requires p <= |log|
    ensures InLog(log, t) ==> InLog(log[..p] + [deed] + log[p..], t)
  {
    if k :| 0 <= k < |log| && log[k].thread == t {
      assert (log[..p] + [deed] + log[p..])[if k < p then k else k + 1].thread == t;
    }
  }

  lemma StepLogsAll(s: State, t: nat, ok: bool, u: nat)
    requires Enabled(s, t) && Well(s) && Logged(s)
    requires u < |Next(s, t, ok).threads| && Decided(Next(s, t, ok).threads[u])
    ensures InLog(Next(s, t, ok).log, u)
  {
    LogGrows(s, t, ok);
    var settled := Settles(s.service, s.threads[t].call, s.threads[t].at);
    if settled.Some? {
      var p := Place(s.log, settled.value, s.service.status);
      assert (s.log[..p] + [Deed(t, settled.value)] + s.log[p..])[p].thread == t;
      InsertedInLog(s.log, p, Deed(t, settled.value), u);
    }
  }

  predicate Once(log: seq<Deed>) {
    forall k, l | 0 <= k < l < |log| :: log[k].thread != log[l].thread
  }

  lemma StepLogsOnce(s: State, t: nat, ok: bool)
    requires Enabled(s, t) && Well(s) && Logged(s)
    ensures Once(Next(s, t, ok).log)
  {
    LogGrows(s, t, ok);
    var settled := Settles(s.service, s.threads[t].call, s.threads[t].at);
    if settled.Some? {
      assert forall k | 0 <= k < |s.log| :: s.log[k].thread != t;
    }
  }

  lemma StepLogs(s: State, t: nat, ok: bool)
    requires Enabled(s, t) && Well(s) && Logged(s)
    ensures Logged(Next(s, t, ok))
  {
    var s' := Next(s, t, ok);
    StepLogsOnce(s, t, ok);
    forall k | 0 <= k < |s'.log|
      ensures s'.log[k].thread < |s'.threads| && Decided(s'.threads[s'.log[k].thread]) && Fits(s', s'.log[k])
    {
      StepLogsDeed(s, t, ok, k);
    }
    forall u | 0 <= u < |s'.threads| && Decided(s'.threads[u])
      ensures InLog(s'.log, u)
    {
      StepLogsAll(s, t, ok, u);
    }
  }

  lemma {:induction false} RunLogs(states: seq<State>, moves: seq<Move>, k: nat)
    requires Run(states, moves) && k < |states|
    ensures Logged(states[k])
  {
    if k > 0 {
      RunLogs(states, moves, k - 1);
      RunKeepsWell(states, moves, k - 1);
      assert IsMove(states[k - 1], moves[k - 1], states[k]);
      StepLogs(states[k - 1], moves[k - 1].thread, moves[k - 1].ok);
    }
  }

  /** Whenever the lifecycle mutex is free, the calls that have come to something are in
      the log, each once and with an outcome of its own kind; and the service is as if
      they had been made one after the other in that order, unless an error was lost. */
  lemma AsIfInTurn(states: seq<State>, moves: seq<Move>, k: nat)
    requires Run(states, moves) && k < |states| && states[k].holder.None?
    ensures Rest(states[k].service.status, states[k].service.instance.Some?) == AfterAll(states[k].log) <==> !Lost(states[k].log)
    ensures Lost(states[k].log) ==> states[k].service.status == IDLE && AfterAll(states[k].log) == Rest(FATAL, false)
    ensures Logged(states[k])
  {
    RunTracks(states, moves, k);
    RunLogs(states, moves, k);
  }

  // ----- in the order of time

  predicate Precedes(log: seq<Deed>, t: nat, u: nat) {
    exists k, l | 0 <= k < l < |log| :: log[k].thread == t && log[l].thread == u
  }

  // A start that may yet have to make way for an error that was reported meanwhile.
  predicate UnderWay(at: At) {
    at.Creating? || at.Created? || at.Starting? || at.StartReturned?
  }

  // Call t has returned, and u has come to nothing yet or comes after it; an error that was reported while u was under way is not t's.
  predicate InOrder(s: State, t: nat, u: nat) {
    var order :=
      && t < |s.threads| && s.threads[t].at == Done && u < |s.threads| && t != u
      && InLog(s.log, t)
      && (Decided(s.threads[u]) ==> Precedes(s.log, t, u))
      && (UnderWay(s.threads[u].at) ==> s.service.status == STARTING || (s.log != [] && s.log[|s.log| - 1].thread != t));
    order
  }

  lemma InsertedInOrder(log: seq<Deed>, p: nat, deed: Deed, t: nat, u: nat)
    requires p <= |log|
    ensures Precedes(log, t, u) ==> Precedes(log[..p] + [deed] + log[p..], t, u)
  {
    var log' := log[..p] + [deed] + log[p..];
    if k, l :| 0 <= k < l < |log| && log[k].thread == t && log[l].thread == u {
      assert log'[if k < p then k else k + 1].thread == t && log'[if l < p then l else l + 1].thread == u;
    }
  }

  lemma InsertedAfter(log: seq<Deed>, p: nat, deed: Deed, t: nat)
    requires p <= |log| && exists k | 0 <= k < p :: log[k].thread == t
    ensures Precedes(log[..p] + [deed] + log[p..], t, deed.thread)
  {
    var log' := log[..p] + [deed] + log[p..];
    var k :| 0 <= k < p && log[k].thread == t;
    assert log'[k].thread == t && log'[p].thread == deed.thread;
  }

  lemma StepDecidesInOrder(s: State, x: nat, ok: bool, t: nat, u: nat)
    requires Enabled(s, x) && Well(s) && Logged(s) && InOrder(s, t, u)
    ensures InLog(Next(s, x, ok).log, t)
    ensures Decided(Next(s, x, ok).threads[u]) ==> Precedes(Next(s, x, ok).log, t, u)
  {
    LogGrows(s, x, ok);
    var settled := Settles(s.service, s.threads[x].call, s.threads[x].at);
    if settled.Some? {
      var p := Place(s.log, settled.value, s.service.status);
      InsertedInLog(s.log, p, Deed(x, settled.value), t);
      InsertedInOrder(s.log, p, Deed(x, settled.value), t, u);
      if x == u {
        InsertedAfter(s.log, p, Deed(x, settled.value), t);
      }
    }
  }

  lemma StepStaysUnderWay(v: Service, call: Call, at: At, ok: bool)
    requires Belongs(call, at)
    ensures var (v', at') := Act(v, call, at, ok);
            UnderWay(at') ==> v'.status == STARTING || (UnderWay(at) && v'.status == v.status && Settles(v, call, at).None?)
  {
  }

  lemma StepStaysInOrder(s: State, x: nat, ok: bool, t: nat, u: nat)
    requires Enabled(s, x) && Well(s) && Logged(s) && InOrder(s, t, u)
    ensures var s' := Next(s, x, ok);
            UnderWay(s'.threads[u].at) ==> s'.service.status == STARTING || (s'.log != [] && s'.log[|s'.log| - 1].thread != t)
  {
    assert ThreadWell(s, x) && ThreadWell(s, u);
    if x == u {
      StepStaysUnderWay(s.service, s.threads[u].call, s.threads[u].at, ok);
    } else if UnderWay(s.threads[u].at) {
      assert s.threads[x].at == Begin;
    }
  }

  lemma MoveKeepsOrder(s: State, m: Move, s': State, t: nat, u: nat)
    requires IsMove(s, m, s') && Well(s) && Logged(s) && InOrder(s, t, u)
    ensures InOrder(s', t, u)
  {
    StepDecidesInOrder(s, m.thread, m.ok, t, u);
    StepStaysInOrder(s, m.thread, m.ok, t, u);
  }

  lemma BeginsInOrder(s: State, t: nat, u: nat)
    requires Logged(s) && t < |s.threads| && u < |s.threads|
    requires s.threads[t].at == Done && s.threads[t].call != Close && s.threads[u].at == Begin
    ensures InOrder(s, t, u)
  {
  }

  lemma {:induction false} RunKeepsOrder(states: seq<State>, moves: seq<Move>, k: nat, n: nat, t: nat, u: nat)
    requires Run(states, moves) && k <= n < |states| && InOrder(states[k], t, u)
    ensures InOrder(states[n], t, u)
  {
    if n > k {
      RunKeepsOrder(states, moves, k, n - 1, t, u);
      RunKeepsWell(states, moves, n - 1);
      RunLogs(states, moves, n - 1);
      MoveKeepsOrder(states[n - 1], moves[n - 1], states[n], t, u);
    }
  }

  /** The order of the log is that of time: a call that had returned before another began
      comes before it. */
  lemma InOrderOfTime(states: seq<State>, moves: seq<Move>, k: nat, n: nat, t: nat, u: nat)
    requires Run(states, moves) && k <= n < |states| && t < |states[k].threads| && u < |states[k].threads|
    requires states[k].threads[t].at == Done && states[k].threads[t].call != Close && states[k].threads[u].at == Begin
    requires InLog(states[n].log, u)
    ensures Precedes(states[n].log, t, u)
  {
    RunLogs(states, moves, k);
    BeginsInOrder(states[k], t, u);
    RunKeepsOrder(states, moves, k, n, t, u);
    RunLogs(states, moves, n);
  }

  // ----- when an error can be lost

  predicate StartCloseAndError(s: State, a: nat, b: nat, c: nat) {
    && a < |s.threads| && s.threads[a].call == StartOrReloadService
    && b < |s.threads| && s.threads[b].call == CloseService
    && c < |s.threads| && s.threads[c].call == SetError
  }

  ghost predicate CanLose(s: State) {
    exists a: nat, b: nat, c: nat :: StartCloseAndError(s, a, b, c)
  }

  // Whoever closes without an instance does so after a start; whoever closes over an error, after an error too.
  ghost predicate LossWell(s: State) {
    && (HolderAt(s).Closed? && HolderAt(s).empty ==> OnePast(s))
    && ((exists k | 0 <= k < |s.log| :: s.log[k].outcome == ClosedOver) ==> CanLose(s))
  }

  lemma StillCanLose(s: State, s': State)
    requires SameCalls(s, s') && CanLose(s)
    ensures CanLose(s')
  {
    var a: nat, b: nat, c: nat :| StartCloseAndError(s, a, b, c);
    assert StartCloseAndError(s', a, b, c);
  }

  lemma ClosingOverLoses(s: State, t: nat)
    requires Enabled(s, t) && Well(s) && Logged(s) && LossWell(s) && Tracks(s.service, HolderAt(s), s.log)
    requires Settles(s.service, s.threads[t].call, s.threads[t].at) == Some(ClosedOver)
    ensures CanLose(s)
  {
    assert ThreadWell(s, t);
    var a :| 0 <= a < |s.threads| && Past(s.threads[a]);
    var c := s.log[|s.log| - 1].thread;
    assert Fits(s, s.log[|s.log| - 1]);
    assert StartCloseAndError(s, a, t, c);
  }

  lemma StepKeepsEmpty(s: State, t: nat, ok: bool)
    requires Enabled(s, t) && Well(s) && LossWell(s)
    ensures var s' := Next(s, t, ok); HolderAt(s').Closed? && HolderAt(s').empty ==> OnePast(s')
  {
    assert ThreadWell(s, t);
    StillPast(s, Next(s, t, ok), t);
  }

  lemma StepKeepsLoss(s: State, t: nat, ok: bool)
    requires Enabled(s, t) && Well(s) && Logged(s) && LossWell(s) && Tracks(s.service, HolderAt(s), s.log)
    ensures LossWell(Next(s, t, ok))
  {
    var s' := Next(s, t, ok);
    StepKeepsEmpty(s, t, ok);
    if k :| 0 <= k < |s'.log| && s'.log[k].outcome == ClosedOver {
      if Settles(s.service, s.threads[t].call, s.threads[t].at) == Some(ClosedOver) {
        ClosingOverLoses(s, t);
      } else {
        assert s'.log[k] in s.log;
      }
      StillCanLose(s, s');
    }
  }

  lemma {:induction false} RunKeepsLoss(states: seq<State>, moves: seq<Move>, k: nat)
    requires Run(states, moves) && k < |states|
    ensures LossWell(states[k])
  {
    if k > 0 {
      RunKeepsLoss(states, moves, k - 1);
      RunKeepsWell(states, moves, k - 1);
      RunLogs(states, moves, k - 1);
      RunTracks(states, moves, k - 1);
      assert IsMove(states[k - 1], moves[k - 1], states[k]);
      StepKeepsLoss(states[k - 1], moves[k - 1].thread, moves[k - 1].ok);
    }
  }

  lemma {:induction false} LostIsClosedOver(log: seq<Deed>)
    requires Lost(log)
    ensures exists k | 0 <= k < |log| :: log[k].outcome == ClosedOver
  {
    var last := |log| - 1;
    if log[last].outcome != ClosedOver {
      LostIsClosedOver(log[..last]);
      var k :| 0 <= k < last && log[..last][k].outcome == ClosedOver;
      assert log[k].outcome == ClosedOver;
    }
  }

  // The mutex is free, and the service is not what the calls add up to.
  ghost predicate Loses(s: State, states: seq<State>, moves: seq<Move>, k: nat) {
    && Run(states, moves) && states[0] == s && k < |states|
    && states[k].holder.None? && Rest(states[k].service.status, states[k].service.instance.Some?) != AfterAll(states[k].log)
  }

  lemma LosesNeeds(s: State, states: seq<State>, moves: seq<Move>, k: nat)
    requires Loses(s, states, moves, k)
    ensures CanLose(s)
  {
    AsIfInTurn(states, moves, k);
    LostIsClosedOver(states[k].log);
    RunKeepsLoss(states, moves, k);
    RunKeepsWell(states, moves, k);
    StillCanLose(states[k], s);
  }

  // ----- when a service can come to rest STARTING

  predicate Stranded(s: State) {
    AllReturned(s) && s.service.status == STARTING
  }

  // Two starts, of which one can turn out too late, and a shutdown in between.
  ghost predicate CanStrand(s: State) {
    exists a: nat, b: nat, c: nat :: TwoStartsAndShutdown(s, a, b, c)
  }

  predicate TwoStartsAndShutdown(s: State, a: nat, b: nat, c: nat) {
    && a < |s.threads| && s.threads[a].call == StartOrReloadService
    && b < |s.threads| && s.threads[b].call == StartOrReloadService
    && c < |s.threads| && s.threads[c].call == Close
    && a != b
  }

  lemma StrandedGaveWay(s: State)
    requires Well(s) && Stranded(s)
    ensures s.service.closed && TwoPast(s)
  {
    HolderHolds(s);
    assert !SomePending(s);
  }

  lemma StrandedNeeds(states: seq<State>, moves: seq<Move>)
    requires Run(states, moves) && Stranded(states[|moves|])
    ensures CanStrand(states[0])
  {
    var s := states[|moves|];
    RunKeepsWell(states, moves, |moves|);
    StrandedGaveWay(s);
    var a, b :| 0 <= a < b < |s.threads| && Past(s.threads[a]) && Past(s.threads[b]);
    var c :| 0 <= c < |s.threads| && s.threads[c].call == Close;
    assert s.threads[a].call == states[0].threads[a].call && s.threads[b].call == states[0].threads[b].call;
    assert s.threads[c].call == states[0].threads[c].call;
    assert TwoStartsAndShutdown(states[0], a, b, c);
  }

  lemma Extend(states: seq<State>, moves: seq<Move>, t: nat) returns (states': seq<State>, moves': seq<Move>)
    requires Run(states, moves) && Enabled(states[|moves|], t)
    ensures Run(states', moves') && states'[|moves'|] == Next(states[|moves|], t, true)
    ensures states'[0] == states[0]
  {
    moves' := moves + [Move(t, true)];
    states' := states + [Next(states[|moves|], t, true)];
    forall k | 0 <= k < |moves'|
      ensures IsMove(states'[k], moves'[k], states'[k + 1])
    {
      assert k < |moves| ==> IsMove(states[k], moves[k], states[k + 1]);
    }
  }

  function Finished(threads: seq<Thread>, t: nat): seq<Thread>
    requires t < |threads|
  {
    threads[t := threads[t].(at := Done)]
  }

  // Nothing is running and nothing was started.
  predicate Quiet(s: State) {
    s.holder.None? && s.service.instance.None? && !s.service.interrupted && !s.service.closed &&
    (s.service.status == IDLE || s.service.status == FATAL)
  }

  predicate Harmless(call: Call) {
    call == CloseService || call == SetError
  }

  // Closing, or failing, a quiet service leaves it quiet.
  lemma FinishHarmless(states: seq<State>, moves: seq<Move>, t: nat) returns (states': seq<State>, moves': seq<Move>)
    requires Run(states, moves) && Quiet(states[|moves|])
    requires t < |states[|moves|].threads| && states[|moves|].threads[t].at == Begin && Harmless(states[|moves|].threads[t].call)
    ensures Run(states', moves') && states'[0] == states[0] && Quiet(states'[|moves'|])
    ensures states'[|moves'|].threads == Finished(states[|moves|].threads, t)
  {
    states', moves' := Extend(states, moves, t);
    if states[|moves|].threads[t].call == CloseService {
      states', moves' := Extend(states', moves', t);
      states', moves' := Extend(states', moves', t);
      states', moves' := Extend(states', moves', t);
    }
  }

  lemma {:induction false} FinishAllHarmless(s: State, n: nat) returns (states: seq<State>, moves: seq<Move>)
    requires Init(s) && n <= |s.threads|
    ensures Run(states, moves) && states[0] == s && Quiet(states[|moves|])
    ensures var threads := states[|moves|].threads;
            |threads| == |s.threads| &&
            forall t | 0 <= t < |threads| ::
              threads[t] == if t < n && Harmless(s.threads[t].call) then s.threads[t].(at := Done) else s.threads[t]
  {
    if n == 0 {
      states, moves := [s], [];
    } else {
      states, moves := FinishAllHarmless(s, n - 1);
      if Harmless(s.threads[n - 1].call) {
        states, moves := FinishHarmless(states, moves, n - 1);
      }
    }
  }

  // Start a of a quiet service gets as far as starting its instance.
  lemma StartIsUnderWay(states: seq<State>, moves: seq<Move>, a: nat) returns (states': seq<State>, moves': seq<Move>)
    requires Run(states, moves) && Quiet(states[|moves|])
    requires a < |states[|moves|].threads| && states[|moves|].threads[a] == Thread(StartOrReloadService, Begin)
    ensures Run(states', moves') && states'[0] == states[0]
    ensures var s, s' := states[|moves|], states'[|moves'|]; var id := |s.service.closes|;
            && s'.service == Service(STARTING, Some(id), false, false, s.service.closes + [0])
            && s'.holder == Some(a)
            && s'.threads == s.threads[a := Thread(StartOrReloadService, Starting(id))]
  {
    states', moves' := Extend(states, moves, a);
    states', moves' := Extend(states', moves', a);
    states', moves' := Extend(states', moves', a);
    states', moves' := Extend(states', moves', a);
    states', moves' := Extend(states', moves', a);
  }

  // Start b interrupts it, and the service is shut down.
  lemma StartIsInterrupted(states: seq<State>, moves: seq<Move>, b: nat, c: nat) returns (states': seq<State>, moves': seq<Move>)
    requires Run(states, moves)
    requires var s := states[|moves|];
             && b < |s.threads| && c < |s.threads| && b != c
             && s.service.status == STARTING && s.service.instance.Some? && s.holder.Some?
             && s.threads[b] == Thread(StartOrReloadService, Begin) && s.threads[c] == Thread(Close, Begin)
    ensures Run(states', moves') && states'[0] == states[0]
    ensures var s, s' := states[|moves|], states'[|moves'|];
            && s'.service == s.service.(interrupted := true, closed := true)
            && s'.holder == s.holder
            && s'.threads == s.threads[b := Thread(StartOrReloadService, Waiting)][c := Thread(Close, Done)]
  {
    states', moves' := Extend(states, moves, b);
    states', moves' := Extend(states', moves', c);
  }

  // Start a finds that it was interrupted.
  lemma InterruptedIsDiscarded(states: seq<State>, moves: seq<Move>, a: nat) returns (states': seq<State>, moves': seq<Move>)
    requires Run(states, moves)
    requires var s := states[|moves|];
             && a < |s.threads| && s.holder == Some(a) && s.service.interrupted
             && s.threads[a].call == StartOrReloadService && s.threads[a].at.Starting?
    ensures Run(states', moves') && states'[0] == states[0]
    ensures var s, s' := states[|moves|], states'[|moves'|];
            && s'.service == s.service.(interrupted := false, instance := None)
            && s'.holder == s.holder
            && s'.threads == s.threads[a := Thread(StartOrReloadService, Discarding(s.threads[a].at.id))]
  {
    states', moves' := Extend(states, moves, a);
    states', moves' := Extend(states', moves', a);
  }

  // Start b interrupts it, the service is shut down, and start a gives way.
  lemma StartGivesWay(states: seq<State>, moves: seq<Move>, a: nat, b: nat, c: nat) returns (states': seq<State>, moves': seq<Move>)
    requires Run(states, moves)
    requires var s := states[|moves|];
             && a < |s.threads| && b < |s.threads| && c < |s.threads| && a != b && a != c && b != c
             && s.service.status == STARTING && s.service.instance.Some? && !s.service.interrupted
             && s.holder == Some(a) && s.threads[a] == Thread(StartOrReloadService, Starting(s.service.instance.value))
             && s.threads[b] == Thread(StartOrReloadService, Begin) && s.threads[c] == Thread(Close, Begin)
    ensures Run(states', moves') && states'[0] == states[0]
    ensures var s, s' := states[|moves|], states'[|moves'|];
            && s'.service == Service(STARTING, None, false, true, s'.service.closes)
            && s'.holder.None?
            && s'.threads == s.threads[a := Thread(StartOrReloadService, Done)][b := Thread(StartOrReloadService, Waiting)][c := Thread(Close, Done)]
  {
    states', moves' := StartIsInterrupted(states, moves, b, c);
    states', moves' := InterruptedIsDiscarded(states', moves', a);
    states', moves' := Extend(states', moves', a);
    states', moves' := Extend(states', moves', a);
  }

  // Left STARTING with nobody starting it, and shut down.
  predicate Abandoned(s: State) {
    s.holder.None? && s.service.instance.None? && !s.service.interrupted && s.service.closed && s.service.status == STARTING
  }

  predicate Late(thread: Thread) {
    || (thread.call == StartOrReloadService && (thread.at == Begin || thread.at == Waiting))
    || (thread.call == Close && thread.at == Begin)
  }

  lemma FinishTurnedAway(states: seq<State>, moves: seq<Move>, t: nat) returns (states': seq<State>, moves': seq<Move>)
    requires Run(states, moves) && Abandoned(states[|moves|])
    requires t < |states[|moves|].threads| && states[|moves|].threads[t] == Thread(StartOrReloadService, Waiting)
    ensures Run(states', moves') && states'[0] == states[0] && Abandoned(states'[|moves'|])
    ensures states'[|moves'|].threads == Finished(states[|moves|].threads, t)
  {
    states', moves' := Extend(states, moves, t);
    states', moves' := Extend(states', moves', t);
    states', moves' := Extend(states', moves', t);
  }

  // Further starts are turned away, and further shutdowns change nothing.
  lemma FinishLate(states: seq<State>, moves: seq<Move>, t: nat) returns (states': seq<State>, moves': seq<Move>)
    requires Run(states, moves) && Abandoned(states[|moves|])
    requires t < |states[|moves|].threads| && Late(states[|moves|].threads[t])
    ensures Run(states', moves') && states'[0] == states[0] && Abandoned(states'[|moves'|])
    ensures states'[|moves'|].threads == Finished(states[|moves|].threads, t)
  {
    states', moves' := states, moves;
    if states[|moves|].threads[t].at == Begin {
      states', moves' := Extend(states', moves', t);
    }
    if states[|moves|].threads[t].call == StartOrReloadService {
      states', moves' := FinishTurnedAway(states', moves', t);
    }
  }

  lemma {:induction false} FinishAllLate(states: seq<State>, moves: seq<Move>, n: nat) returns (states': seq<State>, moves': seq<Move>)
    requires Run(states, moves) && Abandoned(states[|moves|]) && n <= |states[|moves|].threads|
    requires forall t | 0 <= t < |states[|moves|].threads| :: Late(states[|moves|].threads[t]) || states[|moves|].threads[t].at == Done
    ensures Run(states', moves') && states'[0] == states[0] && Abandoned(states'[|moves'|])
    ensures var threads, threads' := states[|moves|].threads, states'[|moves'|].threads;
            |threads'| == |threads| &&
            forall t | 0 <= t < |threads| :: threads'[t] == if t < n then threads[t].(at := Done) else threads[t]
  {
    if n == 0 {
      states', moves' := states, moves;
    } else {
      states', moves' := FinishAllLate(states, moves, n - 1);
      if states[|moves|].threads[n - 1].at != Done {
        states', moves' := FinishLate(states', moves', n - 1);
      }
    }
  }

  lemma StrandingRun(s: State, a: nat, b: nat, c: nat) returns (states: seq<State>, moves: seq<Move>)
    requires Init(s) && TwoStartsAndShutdown(s, a, b, c)
    ensures Run(states, moves) && states[0] == s && Stranded(states[|moves|])
  {
    states, moves := FinishAllHarmless(s, |s.threads|);
    states, moves := StartIsUnderWay(states, moves, a);
    states, moves := StartGivesWay(states, moves, a, b, c);
    states, moves := FinishAllLate(states, moves, |s.threads|);
  }

  /** Some run of the given calls comes to rest STARTING if and only if there are two
      starts and a shutdown among them. */
  lemma StrandedIff(s: State)
    requires Init(s)
    ensures (exists states, moves :: Run(states, moves) && states[0] == s && Stranded(states[|moves|])) <==> CanStrand(s)
  {
    if states, moves :| Run(states, moves) && states[0] == s && Stranded(states[|moves|]) {
      StrandedNeeds(states, moves);
    }
    if CanStrand(s) {
      var a: nat, b: nat, c: nat :| TwoStartsAndShutdown(s, a, b, c);
      var states, moves := StrandingRun(s, a, b, c);
    }
  }

  // With closing b inside, after a start gave way to it, error c is reported.
  lemma ErrorMeetsClosing(states: seq<State>, moves: seq<Move>, a: nat, b: nat, c: nat) returns (states': seq<State>, moves': seq<Move>)
    requires Run(states, moves)
    requires var s := states[|moves|];
             && StartCloseAndError(s, a, b, c)
             && s.service.status == STARTING && s.service.instance.None? && s.holder.None?
             && s.threads[b].at == Waiting && s.threads[c].at == Begin
    ensures Run(states', moves') && states'[0] == states[0] && states'[|moves'|].holder.None?
    ensures EndsOver(states'[|moves'|].log)
  {
    states', moves' := Extend(states, moves, b);
    states', moves' := Extend(states', moves', b);
    states', moves' := Extend(states', moves', c);
    states', moves' := ErrorIsClosedOver(states', moves', b);
  }

  predicate EndsOver(log: seq<Deed>) {
    log != [] && log[|log| - 1].outcome == ClosedOver
  }

  lemma ClosingEndsOver(s: State, b: nat)
    requires b < |s.threads| && s.threads[b] == Thread(CloseService, Closed(false, true)) && s.service.status == FATAL
    ensures var s' := Next(s, b, true);
            s'.threads[b].at == Leaving && EndsOver(s'.log) && Next(s', b, true).log == s'.log
  {
  }

  lemma ErrorIsClosedOver(states: seq<State>, moves: seq<Move>, b: nat) returns (states': seq<State>, moves': seq<Move>)
    requires Run(states, moves)
    requires var s := states[|moves|];
             b < |s.threads| && s.threads[b] == Thread(CloseService, Closed(false, true)) && s.service.status == FATAL && s.holder == Some(b)
    ensures Run(states', moves') && states'[0] == states[0] && states'[|moves'|].holder.None?
    ensures EndsOver(states'[|moves'|].log)
  {
    ClosingEndsOver(states[|moves|], b);
    states', moves' := Extend(states, moves, b);
    states', moves' := Extend(states', moves', b);
  }

  lemma StartGivesWayToClosing(states: seq<State>, moves: seq<Move>, a: nat, b: nat) returns (states': seq<State>, moves': seq<Move>)
    requires Run(states, moves)
    requires var s := states[|moves|];
             && a < |s.threads| && b < |s.threads|
             && s.service.status == STARTING && s.service.instance.Some? && !s.service.interrupted
             && s.holder == Some(a) && s.threads[a] == Thread(StartOrReloadService, Starting(s.service.instance.value))
             && s.threads[b] == Thread(CloseService, Begin)
    ensures Run(states', moves') && states'[0] == states[0]
    ensures var s, s' := states[|moves|], states'[|moves'|];
            && s'.service.status == STARTING && s'.service.instance.None? && s'.holder.None?
            && s'.threads == s.threads[a := Thread(StartOrReloadService, Done)][b := Thread(CloseService, Waiting)]
  {
    states', moves' := Extend(states, moves, b);
    states', moves' := InterruptedIsDiscarded(states', moves', a);
    states', moves' := Extend(states', moves', a);
    states', moves' := Extend(states', moves', a);
  }

  lemma LosingRun(s: State, a: nat, b: nat, c: nat) returns (states: seq<State>, moves: seq<Move>)
    requires Init(s) && StartCloseAndError(s, a, b, c)
    ensures Loses(s, states, moves, |moves|)
  {
    states, moves := StartIsUnderWay([s], [], a);
    states, moves := StartGivesWayToClosing(states, moves, a, b);
    states, moves := ErrorMeetsClosing(states, moves, a, b, c);
    AsIfInTurn(states, moves, |moves|);
  }

  /** Some run of the given calls comes to a moment with the mutex free and the service not
      as if the calls had been made one after the other, if and only if there are a start,
      a closing and an error among them. */
  lemma LostIff(s: State)
    requires Init(s)
    ensures (exists states, moves, k :: Loses(s, states, moves, k)) <==> CanLose(s)
  {
    if states, moves, k :| Loses(s, states, moves, k) {
      LosesNeeds(s, states, moves, k);
    }
    if CanLose(s) {
      var a: nat, b: nat, c: nat :| StartCloseAndError(s, a, b, c);
      var states, moves := LosingRun(s, a, b, c);
    }
  }
}
