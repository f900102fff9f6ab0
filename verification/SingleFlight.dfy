/** The lock that keeps identical DNS exchanges from running side by side: a shared map
    from exchange key to a channel that its owner closes. Any number of synchronous and
    asynchronous exchanges interleave; one event is one atomic access to the shared map,
    a channel or the cache. */
module SingleFlight {
  import opened Wrappers

  type Key = nat
  type Chan = nat

  // What an exchange owes: delete the map entry, then close the channel.
  datatype Claim = Claim(key: Key, chan: Chan)

  datatype Stage =
    | Start(mayWait: bool)
    | Looking(other: Option<Chan>, mayWait: bool) // other: the channel of the exchange that was found to own the key
    | Waiting(chan: Chan)
    | Checking
    | Ready
    | Closing(chan: Chan)
    | Done

  // disableCache: the exchange makes no use of the cache, nor of the lock.
  datatype Operation = Operation(disableCache: bool, stage: Stage, claim: Option<Claim>, waits: nat)

  datatype Event =
    | Leave           // refused before the lock: the context has ended, no question, or the strategy excludes it
    | Bypass
    | LoadOrStore(key: Key)
    | Hit
    | Miss
    | Abort           // loopback, or known to be rejected
    | Send
    | Wake
    | GiveUp          // the context has ended
    | Answer          // from the transport, well or badly
    | Close

  // A stored channel: the exchange that made it, and how often it has been closed.
  datatype Channel = Channel(maker: nat, closes: nat)

  datatype State = State(lock: map<Key, Chan>, channels: seq<Channel>, ops: seq<Operation>)

  predicate IsClosed(s: State, c: Chan) {
    c < |s.channels| && s.channels[c].closes > 0
  }

  // A synchronous exchange may wait; an asynchronous one may not at first.
  predicate Init(s: State) {
    s.lock == map[] && s.channels == [] &&
    forall i | 0 <= i < |s.ops| :: s.ops[i].stage.Start? && s.ops[i].claim.None? && s.ops[i].waits == 0
  }

  predicate Enabled(s: State, i: nat, e: Event)
    requires i < |s.ops|
  {
    var stage := s.ops[i].stage;
    match e
    case Leave => stage.Start?
    case Bypass => stage.Start? && s.ops[i].disableCache
    case LoadOrStore(_) => stage.Start? && !s.ops[i].disableCache
    case Hit => stage.Looking?
    case Miss => stage.Looking?
    case Abort => stage.Checking?
    case Send => stage.Checking?
    case Wake => stage.Waiting? && IsClosed(s, stage.chan)
    case GiveUp => stage.Waiting?
    case Answer => stage.Ready?
    case Close => stage.Closing?
  }

  function To(s: State, i: nat, stage: Stage): State
    requires i < |s.ops|
  {
    s.(ops := s.ops[i := s.ops[i].(stage := stage)])
  }

  function Shut(s: State, c: Chan): State {
    if c < |s.channels| then
      s.(channels := s.channels[c := s.channels[c].(closes := s.channels[c].closes + 1)])
    else s
  }

  // Delete the entry; the channel is closed next. Nothing to do without a claim.
  function Release(s: State, i: nat): State
    requires i < |s.ops|
  {
    match s.ops[i].claim
    case None => To(s, i, Done)
    case Some(claim) =>
      s.(lock := s.lock - {claim.key}, ops := s.ops[i := s.ops[i].(stage := Closing(claim.chan), claim := None)])
  }

  function Acquire(s: State, i: nat, key: Key): State
    requires i < |s.ops| && s.ops[i].stage.Start?
  {
    var mayWait := s.ops[i].stage.mayWait;
    if key in s.lock then To(s, i, Looking(Some(s.lock[key]), mayWait))
    else
      var chan := |s.channels|;
      s.(lock := s.lock[key := chan], channels := s.channels + [Channel(i, 0)],
         ops := s.ops[i := s.ops[i].(stage := Looking(None, mayWait), claim := Some(Claim(key, chan)))])
  }

  // Nothing usable in the cache: go to the transport, wait for the owner, or start over as one that may wait.
  function Missed(s: State, i: nat): State
    requires i < |s.ops| && s.ops[i].stage.Looking?
  {
    var Looking(other, mayWait) := s.ops[i].stage;
    if other.None? then To(s, i, Checking)
    else if !mayWait then To(s, i, Start(true))
    else s.(ops := s.ops[i := s.ops[i].(stage := Waiting(other.value), waits := s.ops[i].waits + 1)])
  }

  function Next(s: State, i: nat, e: Event): State
    requires i < |s.ops| && Enabled(s, i, e)
  {
    match e
    case Leave => To(s, i, Done)
    case Bypass => To(s, i, Checking)
    case LoadOrStore(key) => Acquire(s, i, key)
    case Hit => Release(s, i)
    case Miss => Missed(s, i)
    case Abort => Release(s, i)
    case Send => To(s, i, Ready)
    case Wake => To(s, i, Looking(None, true))
    case GiveUp => To(s, i, Done)
    case Answer => Release(s, i)
    case Close => Shut(To(s, i, Done), s.ops[i].stage.chan)
  }

  // ----- what every step keeps

  predicate Holds(op: Operation, c: Chan) {
    (op.claim.Some? && op.claim.value.chan == c) || op.stage == Closing(c)
  }

  // A claim is on an entry of the lock, and only what may still release it has one.
  predicate ClaimWell(s: State, i: nat)
    requires i < |s.ops|
  {
    var op := s.ops[i];
    var well :=
      op.claim.Some? ==>
        && op.claim.value.key in s.lock
        && s.lock[op.claim.value.key] == op.claim.value.chan
        && op.claim.value.chan < |s.channels|
        && s.channels[op.claim.value.chan] == Channel(i, 0)
        && GoesOn(op);
    well
  }

  // At the transport, or on the way there unless the cache answers.
  predicate GoesOn(op: Operation) {
    op.stage.Checking? || op.stage.Ready? || (op.stage.Looking? && op.stage.other.None?)
  }

  predicate StageWell(s: State, i: nat)
    requires i < |s.ops|
  {
    var op := s.ops[i];
    var well :=
      && (op.stage.Waiting? ==> op.stage.chan < |s.channels|)
      && (op.stage.Looking? && op.stage.other.Some? ==> op.stage.other.value < |s.channels|)
      && (op.stage.Closing? ==> op.stage.chan < |s.channels| && s.channels[op.stage.chan] == Channel(i, 0))
      && op.waits <= 1
      && (op.stage.Start? || (op.stage.Looking? && op.stage.other.Some?) ==> op.waits == 0)
      && (op.stage.Waiting? ==> op.waits == 1)
      && (GoesOn(op) ==> op.claim.Some? || op.disableCache || op.waits == 1);
    well
  }

  // A stored channel is held by its maker until it is closed, which happens once.
  predicate ChannelWell(s: State, c: Chan)
    requires c < |s.channels|
  {
    var channel := s.channels[c];
    var well :=
      && channel.maker < |s.ops|
      && channel.closes == if Holds(s.ops[channel.maker], c) then 0 else 1;
    well
  }

  predicate EntryWell(s: State, k: Key)
    requires k in s.lock
  {
    var c := s.lock[k];
    var well :=
      && c < |s.channels|
      && s.channels[c].maker < |s.ops|
      && s.ops[s.channels[c].maker].claim == Some(Claim(k, c));
    well
  }

  predicate Well(s: State) {
    && (forall i | 0 <= i < |s.ops| :: ClaimWell(s, i))
    && (forall i | 0 <= i < |s.ops| :: StageWell(s, i))
    && (forall c | 0 <= c < |s.channels| :: ChannelWell(s, c))
    && (forall k | k in s.lock :: EntryWell(s, k))
  }

  lemma StepKeepsClaim(s: State, i: nat, e: Event, j: nat)
    requires i < |s.ops| && Enabled(s, i, e) && Well(s) && j < |s.ops|
    ensures ClaimWell(Next(s, i, e), j)
  {
    assert ClaimWell(s, i) && ClaimWell(s, j) && StageWell(s, i);
  }

  lemma StepKeepsStage(s: State, i: nat, e: Event, j: nat)
    requires i < |s.ops| && Enabled(s, i, e) && Well(s) && j < |s.ops|
    ensures StageWell(Next(s, i, e), j)
  {
    assert ClaimWell(s, i) && StageWell(s, i) && StageWell(s, j);
    if e.LoadOrStore? && e.key in s.lock {
      assert EntryWell(s, e.key);
    }
  }

  lemma StepKeepsChannel(s: State, i: nat, e: Event, c: Chan)
    requires i < |s.ops| && Enabled(s, i, e) && Well(s) && c < |Next(s, i, e).channels|
    ensures ChannelWell(Next(s, i, e), c)
  {
    assert ClaimWell(s, i) && StageWell(s, i);
    assert c < |s.channels| ==> ChannelWell(s, c);
  }

  lemma StepKeepsEntry(s: State, i: nat, e: Event, k: Key)
    requires i < |s.ops| && Enabled(s, i, e) && Well(s) && k in Next(s, i, e).lock
    ensures EntryWell(Next(s, i, e), k)
  {
    assert ClaimWell(s, i) && StageWell(s, i);
    assert k in s.lock ==> EntryWell(s, k);
  }

  lemma StepKeepsWell(s: State, i: nat, e: Event)
    requires i < |s.ops| && Enabled(s, i, e) && Well(s)
    ensures Well(Next(s, i, e)) && |Next(s, i, e).ops| == |s.ops|
  {
    var t := Next(s, i, e);
    forall j | 0 <= j < |t.ops|
      ensures ClaimWell(t, j) && StageWell(t, j)
    {
      StepKeepsClaim(s, i, e, j);
      StepKeepsStage(s, i, e, j);
    }
    forall c | 0 <= c < |t.channels|
      ensures ChannelWell(t, c)
    {
      StepKeepsChannel(s, i, e, c);
    }
    forall k | k in t.lock
      ensures EntryWell(t, k)
    {
      StepKeepsEntry(s, i, e, k);
    }
  }

  // ----- whole runs

  datatype Move = Move(op: nat, event: Event)

  ghost predicate Run(states: seq<State>, moves: seq<Move>) {
    && |states| == |moves| + 1
    && Init(states[0])
    && forall k | 0 <= k < |moves| :: IsMove(states[k], moves[k], states[k + 1])
  }

  predicate IsMove(s: State, m: Move, t: State) {
    m.op < |s.ops| && Enabled(s, m.op, m.event) && t == Next(s, m.op, m.event)
  }

  lemma {:induction false} RunKeepsWell(states: seq<State>, moves: seq<Move>, k: nat)
    requires Run(states, moves) && k < |states|
    ensures Well(states[k]) && |states[k].ops| == |states[0].ops|
  {
    if k > 0 {
      RunKeepsWell(states, moves, k - 1);
      assert IsMove(states[k - 1], moves[k - 1], states[k]);
      StepKeepsWell(states[k - 1], moves[k - 1].op, moves[k - 1].event);
    }
  }

  predicate SameKey(a: Operation, b: Operation) {
    a.claim.Some? && b.claim.Some? && a.claim.value.key == b.claim.value.key
  }

  /** At any moment of any run, a key has at most one owner, no channel has been closed
      twice, a channel that is waited for is closed or held by an exchange that does not
      itself wait, and no exchange has waited more than once. Whoever is at the transport,
      or on the way there, owns a key, or makes no use of the cache, or has waited once:
      so of those that use the cache and have not waited, at most one per key is there. */
  lemma SingleFlightSafety(states: seq<State>, moves: seq<Move>, n: nat)
    requires Run(states, moves) && n < |states|
    ensures var s := states[n];
            && (forall i, j | 0 <= i < |s.ops| && 0 <= j < |s.ops| && SameKey(s.ops[i], s.ops[j]) :: i == j)
            && (forall c | 0 <= c < |s.channels| :: s.channels[c].closes <= 1)
            && (forall i | 0 <= i < |s.ops| :: s.ops[i].waits <= 1)
            && (forall i | 0 <= i < |s.ops| && s.ops[i].stage.Waiting? :: IsClosed(s, s.ops[i].stage.chan) || HeldByMover(s, s.ops[i].stage.chan))
            && (forall i | 0 <= i < |s.ops| && (s.ops[i].stage.Checking? || s.ops[i].stage.Ready? || (s.ops[i].stage.Looking? && s.ops[i].stage.other.None?)) ::
                  s.ops[i].claim.Some? || s.ops[i].disableCache || s.ops[i].waits == 1)
  {
    RunKeepsWell(states, moves, n);
    var s := states[n];
    forall i, j | 0 <= i < |s.ops| && 0 <= j < |s.ops| && SameKey(s.ops[i], s.ops[j])
      ensures i == j
    {
      assert ClaimWell(s, i) && ClaimWell(s, j);
    }
    forall i | 0 <= i < |s.ops|
      ensures s.ops[i].waits <= 1
    {
      assert StageWell(s, i);
    }
    forall i | 0 <= i < |s.ops| && GoesOn(s.ops[i])
      ensures s.ops[i].claim.Some? || s.ops[i].disableCache || s.ops[i].waits == 1
    {
      assert StageWell(s, i);
    }
    forall c | 0 <= c < |s.channels|
      ensures s.channels[c].closes <= 1
    {
      assert ChannelWell(s, c);
    }
    forall i | 0 <= i < |s.ops| && s.ops[i].stage.Waiting?
      ensures IsClosed(s, s.ops[i].stage.chan) || HeldByMover(s, s.ops[i].stage.chan)
    {
      UnclosedIsHeld(s, i);
    }
  }

  // Held by an exchange that can go on by itself.
  predicate HeldByMover(s: State, c: Chan) {
    exists j | 0 <= j < |s.ops| :: Holds(s.ops[j], c) && !s.ops[j].stage.Waiting? && s.ops[j].stage != Done
  }

  lemma UnclosedIsHeld(s: State, i: nat)
    requires Well(s) && i < |s.ops| && s.ops[i].stage.Waiting?
    ensures IsClosed(s, s.ops[i].stage.chan) || HeldByMover(s, s.ops[i].stage.chan)
  {
    var c := s.ops[i].stage.chan;
    assert StageWell(s, i) && ChannelWell(s, c);
    var j := s.channels[c].maker;
    if Holds(s.ops[j], c) {
      assert ClaimWell(s, j);
    }
  }

  /** Whoever removes an entry or closes a channel had put that very channel there: the
      entry goes first, once the exchange is served from the cache, refused or answered,
      and the channel is closed by its next move; it keeps its entry while it is at the
      transport. */
  lemma OnlyTheOwnerReleases(s: State, i: nat, e: Event)
    requires i < |s.ops| && Enabled(s, i, e) && Well(s)
    ensures var t := Next(s, i, e);
            && (forall k | k in s.lock ::
                  if k in t.lock then t.lock[k] == s.lock[k]
                  else
                    && s.ops[i].claim == Some(Claim(k, s.lock[k])) && t.ops[i].stage == Closing(s.lock[k])
                    && (e.Hit? || e.Abort? || e.Answer?))
            && (e.Send? ==> t.lock == s.lock && t.channels == s.channels && t.ops[i] == s.ops[i].(stage := Ready))
            && (forall c | 0 <= c < |s.channels| ::
                  if s.ops[i].stage == Closing(c) then s.channels[c] == Channel(i, 0) && t.channels[c] == Channel(i, 1)
                  else t.channels[c] == s.channels[c])
            && (s.ops[i].claim.Some? && t.ops[i].claim != s.ops[i].claim ==>
                  t.ops[i].claim.None? && t.ops[i].stage == Closing(s.ops[i].claim.value.chan))
  {
    assert ClaimWell(s, i) && StageWell(s, i);
  }

  // ----- waiting

  // Exchange i has found nothing in the cache since channel c was closed, between moments k and n.
  ghost predicate MissedAfter(states: seq<State>, moves: seq<Move>, k: nat, n: nat, i: nat, c: Chan)
    requires |states| == |moves| + 1 && n <= |moves|
  {
    exists m | k <= m < n :: moves[m] == Move(i, Miss) && IsClosed(states[m], c)
  }

  // How far an exchange that found c in the lock, and may wait, can be; missed: it has found nothing in the cache since c was closed.
  predicate Awaits(s: State, i: nat, c: Chan, missed: bool)
    requires i < |s.ops|
  {
    match s.ops[i].stage
    case Start(_) => false
    case Looking(other, mayWait) => (other == Some(c) && mayWait) || (other.None? && IsClosed(s, c))
    case Waiting(chan) => chan == c
    case Checking => IsClosed(s, c) && missed
    case Ready => IsClosed(s, c) && missed
    case _ => true
  }

  lemma StepKeepsClosed(s: State, i: nat, e: Event, c: Chan)
    requires i < |s.ops| && Enabled(s, i, e)
    ensures IsClosed(s, c) ==> IsClosed(Next(s, i, e), c)
  {
  }

  lemma StepAwaits(s: State, j: nat, e: Event, i: nat, c: Chan, missed: bool)
    requires j < |s.ops| && Enabled(s, j, e) && i < |s.ops| && Awaits(s, i, c, missed)
    ensures i < |Next(s, j, e).ops| && Awaits(Next(s, j, e), i, c, missed || (j == i && e == Miss && IsClosed(s, c)))
  {
    StepKeepsClosed(s, j, e, c);
  }

  lemma {:induction false} RunAwaits(states: seq<State>, moves: seq<Move>, k: nat, n: nat, i: nat, c: Chan)
    requires Run(states, moves) && k <= n < |states|
    requires i < |states[k].ops| && states[k].ops[i].stage == Looking(Some(c), true)
    ensures i < |states[n].ops| && Awaits(states[n], i, c, MissedAfter(states, moves, k, n, i, c))
  {
    if n > k {
      RunAwaits(states, moves, k, n - 1, i, c);
      var s, m := states[n - 1], moves[n - 1];
      assert IsMove(s, m, states[n]);
      StepAwaits(s, m.op, m.event, i, c, MissedAfter(states, moves, k, n - 1, i, c));
    }
  }

  /** An exchange that may wait and finds another one's channel in the lock gets to the
      transport only after that channel is closed, and after it has looked in the cache
      once more and found nothing. */
  lemma WaitsBeforeTransport(states: seq<State>, moves: seq<Move>, k: nat, n: nat, i: nat, c: Chan)
    requires Run(states, moves) && k <= n < |states|
    requires i < |states[k].ops| && states[k].ops[i].stage == Looking(Some(c), true)
    requires i < |states[n].ops| && (states[n].ops[i].stage.Checking? || states[n].ops[i].stage.Ready?)
    ensures IsClosed(states[n], c)
    ensures exists m | k <= m < n :: moves[m] == Move(i, Miss) && IsClosed(states[m], c)
  {
    RunAwaits(states, moves, k, n, i, c);
  }

  // Over all runs, whoever finds a channel in the lock is at the transport only with that channel closed.
  ghost predicate NeverOvertakes(mayWait: bool) {
    forall states, moves, k: nat, n: nat, i: nat, c: Chan {:trigger Overtakes(states, moves, mayWait, k, n, i, c)} ::
      !Overtakes(states, moves, mayWait, k, n, i, c)
  }

  ghost predicate Overtakes(states: seq<State>, moves: seq<Move>, mayWait: bool, k: nat, n: nat, i: nat, c: Chan) {
    && Run(states, moves) && k <= n < |states|
    && i < |states[k].ops| && states[k].ops[i].stage == Looking(Some(c), mayWait)
    && i < |states[n].ops| && (states[n].ops[i].stage.Checking? || states[n].ops[i].stage.Ready?)
    && !IsClosed(states[n], c)
  }

  /** This holds of exchanges that may wait, and of no others: an asynchronous one starts
      over, and the owner takes its entry away before it closes the channel. */
  lemma OnlyWaitersNeverOvertake(mayWait: bool)
    ensures NeverOvertakes(mayWait) <==> mayWait
  {
    if mayWait {
      forall states, moves, k: nat, n: nat, i: nat, c: Chan
        ensures !Overtakes(states, moves, mayWait, k, n, i, c)
      {
        if Overtakes(states, moves, mayWait, k, n, i, c) {
          WaitsBeforeTransport(states, moves, k, n, i, c);
        }
      }
    } else {
      AsynchronousOvertakes();
    }
  }

  lemma AsynchronousOvertakes()
    ensures exists states, moves :: Overtakes(states, moves, false, 2, 6, 1, 0)
  {
    var own, two := Operation(false, Start(true), None, 0), Operation(false, Start(false), None, 0);
    var s0 := State(map[], [], [own, two]);
    var s1 := Next(s0, 0, LoadOrStore(0));
    var s2 := Next(s1, 1, LoadOrStore(0));
    var s3 := Next(s2, 1, Miss);
    var s4 := Next(s3, 0, Hit);
    var s5 := Next(s4, 1, LoadOrStore(0));
    var s6 := Next(s5, 1, Miss);
    var states := [s0, s1, s2, s3, s4, s5, s6];
    var moves := [Move(0, LoadOrStore(0)), Move(1, LoadOrStore(0)), Move(1, Miss), Move(0, Hit), Move(1, LoadOrStore(0)), Move(1, Miss)];
    assert Run(states, moves);
    assert Overtakes(states, moves, false, 2, 6, 1, 0);
  }

  // ----- every run ends, with the lock empty

  function Rank(op: Operation): nat {
    match op.stage
    case Done => 0
    case Closing(_) => 1
    case Ready => 2
    case Checking => 3
    case Waiting(_) => 5
    case Start(mayWait) => if mayWait then 7 else 9
    case Looking(other, mayWait) => if other.None? then 4 else if mayWait then 6 else 8
  }

  function TotalRank(ops: seq<Operation>): nat {
    if ops == [] then 0 else Rank(ops[0]) + TotalRank(ops[1..])
  }

  lemma {:induction false} RankOfUpdate(ops: seq<Operation>, i: nat, op: Operation)
    requires i < |ops|
    ensures TotalRank(ops[i := op]) == TotalRank(ops) - Rank(ops[i]) + Rank(op)
  {
    if i > 0 {
      RankOfUpdate(ops[1..], i - 1, op);
      assert ops[i := op][1..] == ops[1..][i - 1 := op];
    } else {
      assert ops[i := op][1..] == ops[1..];
    }
  }

  lemma {:induction false} RankBound(ops: seq<Operation>)
    ensures TotalRank(ops) <= 9 * |ops|
  {
    if ops != [] {
      RankBound(ops[1..]);
    }
  }

  lemma StepLowersRank(s: State, i: nat, e: Event)
    requires i < |s.ops| && Enabled(s, i, e)
    ensures |Next(s, i, e).ops| == |s.ops|
    ensures TotalRank(Next(s, i, e).ops) < TotalRank(s.ops)
  {
    var t := Next(s, i, e);
    assert t.ops == s.ops[i := t.ops[i]];
    RankOfUpdate(s.ops, i, t.ops[i]);
  }

  // Unless all is done some exchange can move on, without anyone giving up.
  lemma CanMove(s: State) returns (i: nat, e: Event)
    requires Well(s) && exists i | 0 <= i < |s.ops| :: s.ops[i].stage != Done
    ensures i < |s.ops| && Enabled(s, i, e) && e != GiveUp
  {
    i :| i < |s.ops| && s.ops[i].stage != Done;
    if s.ops[i].stage.Waiting? && !IsClosed(s, s.ops[i].stage.chan) {
      UnclosedIsHeld(s, i);
      var j :| 0 <= j < |s.ops| && Holds(s.ops[j], s.ops[i].stage.chan) && !s.ops[j].stage.Waiting? && s.ops[j].stage != Done;
      i := j;
    }
    e := Forward(s.ops[i]);
  }

  // What an exchange does next if it is not refused, and the cache is of no help.
  function Forward(op: Operation): Event
    requires op.stage != Done
  {
    match op.stage
    case Start(_) => if op.disableCache then Bypass else LoadOrStore(0)
    case Looking(_, _) => Miss
    case Waiting(_) => Wake
    case Checking => Send
    case Ready => Answer
    case Closing(_) => Close
  }

  lemma {:induction false} RunIsShort(states: seq<State>, moves: seq<Move>, k: nat)
    requires Run(states, moves) && k < |states|
    ensures k + TotalRank(states[k].ops) <= 9 * |states[0].ops|
  {
    if k == 0 {
      RankBound(states[0].ops);
    } else {
      RunIsShort(states, moves, k - 1);
      assert IsMove(states[k - 1], moves[k - 1], states[k]);
      StepLowersRank(states[k - 1], moves[k - 1].op, moves[k - 1].event);
    }
  }

  /** Every run is finite and can go on, without anyone giving up, until all exchanges
      are done; then the lock is empty, and every channel that was ever stored has been
      closed exactly once. */
  lemma EveryRunDrains(states: seq<State>, moves: seq<Move>)
    requires Run(states, moves)
    ensures |moves| <= 9 * |states[0].ops|
    ensures var s := states[|moves|];
            || (exists i, e | 0 <= i < |s.ops| :: Enabled(s, i, e) && e != GiveUp)
            || (&& (forall i | 0 <= i < |s.ops| :: s.ops[i].stage == Done)
                && s.lock == map[]
                && forall c | 0 <= c < |s.channels| :: s.channels[c].closes == 1)
  {
    var s := states[|moves|];
    RunIsShort(states, moves, |moves|);
    RunKeepsWell(states, moves, |moves|);
    if exists i | 0 <= i < |s.ops| :: s.ops[i].stage != Done {
      var i, e := CanMove(s);
    } else {
      DoneIsDrained(s);
    }
  }

  lemma EntriesAreClaimed(s: State)
    requires Well(s)
    ensures s.lock != map[] ==> exists i | 0 <= i < |s.ops| :: s.ops[i].claim.Some?
  {
    if s.lock != map[] {
      var k :| k in s.lock;
      assert EntryWell(s, k);
    }
  }

  lemma DoneIsDrained(s: State)
    requires Well(s) && forall i | 0 <= i < |s.ops| :: s.ops[i].stage == Done
    ensures s.lock == map[]
    ensures forall c | 0 <= c < |s.channels| :: s.channels[c].closes == 1
  {
    EntriesAreClaimed(s);
    forall i | 0 <= i < |s.ops|
      ensures s.ops[i].claim.None?
    {
      assert ClaimWell(s, i);
    }
    forall c | 0 <= c < |s.channels|
      ensures s.channels[c].closes == 1
    {
      assert ChannelWell(s, c);
    }
  }
}
