/** The DNS client's response cache. Entries may be evicted at any time; whatever is
    served comes from a recorded store under the very same key, and shows what is left
    of its lifetime. */
module ResponseCache {
  import opened Wrappers
  import opened TimeToLive

  // Times are in nanoseconds.
  const SECOND: nat := 1_000_000_000

  // Environment 0 means that no network environment is known.
  datatype Key = Key(question: nat, transport: string, subnet: Option<nat>, environment: nat)

  datatype Entry = Entry(message: Message, expireAt: nat)

  // A store as it happened: the key it was filed under, and the key the query began with.
  datatype Store = Store(key: Key, message: Message, ttl: TTL, at: nat, begun: Key)
  {
    function ExpireAt(): nat {
      at + ttl * SECOND
    }
  }

  datatype Query = Query(disableCache: bool, key: Key, rewriteTTL: Option<TTL>, checker: Option<Message -> bool>)

  datatype Delivery = Accepted(response: Message) | Rejected(response: Message)

  // NOERROR and NXDOMAIN are the answers worth keeping.
  predicate Keepable(rcode: nat) {
    rcode == 0 || rcode == 3
  }

  predicate AllTTLs(m: Message, ttl: TTL) {
    forall i | 0 <= i < |Records(m)| && Records(m)[i].kind != OPT :: Records(m)[i].ttl == ttl
  }

  lemma NormalizedTTLs(m: Message, ttl: TTL)
    ensures AllTTLs(Normalized(m, ttl), ttl)
  {
    RewrittenSections(m, ttl);
  }

  // The key an answer is filed under once it has arrived, if it may be filed at all.
  function FinishKey(key: Key, environment: nat): Option<Key> {
    if environment == key.environment || key.environment == 0 then Some(key.(environment := environment)) else None
  }

  // Filed where it was asked: same question, server and subnet, and the same environment if one was known.
  predicate SameOrigin(begun: Key, key: Key) {
    && key.(environment := begun.environment) == begun
    && (begun.environment != 0 ==> key == begun)
  }

  // An answer may be filed under a key of its origin; and under any of these, when it arrives there.
  lemma FinishKeyIsOrigin(begun: Key, key: Key)
    ensures SameOrigin(begun, key) <==> FinishKey(begun, key.environment) == Some(key)
    ensures begun.environment != 0 && key.environment != begun.environment ==> FinishKey(begun, key.environment).None?
  {
  }

  // A store that the client makes: a keepable answer, whose records all carry its lifetime.
  predicate Proper(s: Store) {
    s.ttl > 0 && Keepable(s.message.rcode) && AllTTLs(s.message, s.ttl) && SameOrigin(s.begun, s.key)
  }

  // What is served from store s at time t.
  predicate ShowsFresh(s: Store, t: nat, m: Message) {
    && t <= s.ExpireAt()
    && (s.ExpireAt() - t) / SECOND <= s.ttl
    && m == Normalized(s.message, (s.ExpireAt() - t) / SECOND)
  }

  predicate ShowsStale(s: Store, t: nat, optimisticTimeout: nat, m: Message) {
    s.ExpireAt() < t < s.ExpireAt() + optimisticTimeout && m == Normalized(s.message, 1)
  }

  predicate Shows(s: Store, t: nat, expires: bool, optimisticTimeout: nat, stale: bool, m: Message) {
    if !expires then !stale && m == s.message
    else if stale then ShowsStale(s, t, optimisticTimeout, m)
    else ShowsFresh(s, t, m)
  }

  // No later store under the same key.
  predicate Latest(stores: seq<Store>, i: nat)
    requires i < |stores|
  {
    forall j | i < j < |stores| :: stores[j].key != stores[i].key
  }

  /** A served answer is justified by the latest recorded store under that key, made no
      later than now, of a keepable answer with a positive lifetime. */
  ghost predicate Justified(stores: seq<Store>, key: Key, t: nat, expires: bool, optimisticTimeout: nat, stale: bool, m: Message) {
    exists i | 0 <= i < |stores| ::
      && stores[i].key == key
      && stores[i].at <= t
      && Proper(stores[i])
      && Latest(stores, i)
      && Shows(stores[i], t, expires, optimisticTimeout, stale, m)
  }

  // s still has left whole seconds to live at time t.
  predicate HasLeft(s: Store, t: nat, left: TTL) {
    left * SECOND <= s.ExpireAt() - t < (left + 1) * SECOND
  }

  lemma LeftFits(s: Store, t: nat)
    requires s.at <= t <= s.ExpireAt()
    ensures 0 <= (s.ExpireAt() - t) / SECOND <= s.ttl
    ensures HasLeft(s, t, (s.ExpireAt() - t) / SECOND)
  {
    var d := s.ExpireAt() - t;
    assert 0 <= d <= s.ttl * SECOND;
    assert d == d / SECOND * SECOND + d % SECOND;
  }

  ghost predicate ServedFrom(s: Store, t: nat, stale: bool, left: TTL, m: Message) {
    && s.at <= t
    && CarriesAll(s.message, left, m)
    && if stale then left == 1 && s.at + s.ttl * 1_000_000_000 < t else HasLeft(s, t, left) && left <= s.ttl
  }

  /** Seen from outside, with expiry on: what is served is NOERROR or NXDOMAIN, and the
      records of a store under that key; fresh, it shows on all but OPT records the whole
      seconds left of a lifetime that has not run out; stale, it shows 1. */
  lemma ServedTTLs(stores: seq<Store>, key: Key, t: nat, optimisticTimeout: nat, stale: bool, m: Message)
    requires Justified(stores, key, t, true, optimisticTimeout, stale, m)
    ensures m.rcode == 0 || m.rcode == 3
    ensures exists i, left: TTL | 0 <= i < |stores| :: stores[i].key == key && ServedFrom(stores[i], t, stale, left, m)
  {
    var i :| 0 <= i < |stores| && stores[i].key == key && stores[i].at <= t && Proper(stores[i]) &&
             Shows(stores[i], t, true, optimisticTimeout, stale, m);
    if stale {
      assert Shows(stores[i], t, true, optimisticTimeout, true, m);
      NormalizedCarries(stores[i].message, 1);
      assert ServedFrom(stores[i], t, true, 1, m);
    } else {
      assert Shows(stores[i], t, true, optimisticTimeout, false, m);
      LeftFits(stores[i], t);
      var left: TTL := (stores[i].ExpireAt() - t) / SECOND;
      NormalizedCarries(stores[i].message, left);
      assert ServedFrom(stores[i], t, false, left, m);
    }
  }

  // A later look never shows more time left.
  lemma LeftShrinks(s: Store, t: nat, t': nat, left: TTL, left': TTL)
    requires t <= t' && HasLeft(s, t, left) && HasLeft(s, t', left')
    ensures left' <= left
    ensures t' >= t + SECOND ==> left' < left
  {
  }

  // The lifetime chosen for an answer.
  function ChosenTTL(query: Query, response: Message): TTL {
    if query.rewriteTTL.Some? then query.rewriteTTL.value else TimeToLiveOf(response)
  }

  predicate Refused(query: Query, response: Message) {
    query.checker.Some? && (!Keepable(response.rcode) || !query.checker.value(response))
  }

  /** The store, if any, that an answer leads to: an accepted, keepable answer with a
      positive lifetime, whose environment has not changed under way. */
  function StoredFor(query: Query, response: Message, environment: nat, now: nat): seq<Store> {
    var ttl := ChosenTTL(query, response);
    var key := FinishKey(query.key, environment);
    if Keepable(response.rcode) && !Refused(query, response) && key.Some? && ttl > 0
    then [Store(key.value, Normalized(response, ttl), ttl, now, query.key)] else []
  }

  // The store of an answer: its records with the lifetime chosen, under the key of the query where it has arrived.
  ghost predicate Files(query: Query, response: Message, environment: nat, now: nat, s: Store) {
    && s.key == Key(query.key.question, query.key.transport, query.key.subnet, environment)
    && s.begun == query.key && s.at == now
    && s.ttl == (if query.rewriteTTL.Some? then query.rewriteTTL.value else TimeToLiveOf(response))
    && CarriesAll(response, s.ttl, s.message)
  }

  /** An answer is stored exactly if it is NOERROR or NXDOMAIN, passes the check if there is
      one, lives longer than 0, and arrives in the environment the query began in, if that
      was known. */
  lemma StoredMeans(query: Query, response: Message, environment: nat, now: nat)
    ensures |StoredFor(query, response, environment, now)| <= 1
    ensures StoredFor(query, response, environment, now) != [] <==>
              && (response.rcode == 0 || response.rcode == 3)
              && (query.checker.Some? ==> query.checker.value(response))
              && (query.key.environment == 0 || query.key.environment == environment)
              && (if query.rewriteTTL.Some? then query.rewriteTTL.value else TimeToLiveOf(response)) > 0
    ensures forall s | s in StoredFor(query, response, environment, now) :: Files(query, response, environment, now, s)
  {
    NormalizedCarries(response, ChosenTTL(query, response));
  }

  lemma StoredIsProper(query: Query, response: Message, environment: nat, now: nat)
    ensures forall s | s in StoredFor(query, response, environment, now) :: Proper(s)
  {
    NormalizedTTLs(response, ChosenTTL(query, response));
  }

  function FiledIn(cache: map<Key, Entry>, stores: seq<Store>): map<Key, Entry> {
    if stores == [] then cache
    else FiledIn(cache, stores[..|stores| - 1])[stores[|stores| - 1].key :=
           Entry(stores[|stores| - 1].message, stores[|stores| - 1].at + stores[|stores| - 1].ttl * 1_000_000_000)]
  }

  predicate Recorded(stores: seq<Store>, clock: nat, key: Key, entry: Entry, i: nat) {
    && i < |stores|
    && stores[i].key == key
    && stores[i].message == entry.message
    && stores[i].ExpireAt() == entry.expireAt
    && stores[i].at <= clock
    && Proper(stores[i])
    && Latest(stores, i)
  }

  // Whatever is in the cache comes from a recorded store.
  ghost predicate AllRecorded(cache: map<Key, Entry>, stores: seq<Store>, clock: nat) {
    forall key | key in cache :: exists i :: Recorded(stores, clock, key, cache[key], i)
  }

  lemma StillRecorded(cache: map<Key, Entry>, stores: seq<Store>, clock: nat, cache': map<Key, Entry>, more: seq<Store>, clock': nat)
    requires AllRecorded(cache, stores, clock) && clock <= clock'
    requires forall key | key in cache' ::
               || (key in cache && cache'[key] == cache[key] && forall s | s in more :: s.key != key)
               || exists i :: Recorded(stores + more, clock', key, cache'[key], i)
    ensures AllRecorded(cache', stores + more, clock')
  {
    forall key | key in cache' && key in cache && cache'[key] == cache[key] && forall s | s in more :: s.key != key
      ensures exists i :: Recorded(stores + more, clock', key, cache'[key], i)
    {
      var i: nat :| Recorded(stores, clock, key, cache[key], i);
      assert Recorded(stores + more, clock', key, cache'[key], i);
    }
  }

  class Client {
    const disableExpire: bool
    const optimisticTimeout: nat
    var cache: map<Key, Entry>
    var refreshing: set<Key>
    ghost var stores: seq<Store>
    ghost var clock: nat

    constructor (disableExpire: bool, optimisticTimeout: nat)
      ensures this.disableExpire == disableExpire && this.optimisticTimeout == optimisticTimeout
      ensures Valid() && cache == map[] && refreshing == {} && stores == [] && clock == 0
    {
      this.disableExpire, this.optimisticTimeout := disableExpire, optimisticTimeout;
      cache, refreshing, stores, clock := map[], {}, [], 0;
    }

    ghost predicate Valid()
      reads this
    {
      AllRecorded(cache, stores, clock)
    }

    method StoreCache(key: Key, message: Message, ttl: TTL, now: nat, ghost begun: Key)
      requires Valid() && clock <= now && Keepable(message.rcode) && AllTTLs(message, ttl) && SameOrigin(begun, key)
      modifies this`cache, this`stores, this`clock
      ensures Valid() && clock == now
      ensures ttl == 0 ==> cache == old(cache) && stores == old(stores)
      ensures ttl > 0 ==>
                && stores == old(stores) + [Store(key, message, ttl, now, begun)]
                && cache == old(cache)[key := Entry(message, now + ttl * SECOND)]
    {
      Wait(now);
      if ttl == 0 {
        return;
      }
      ghost var more := [Store(key, message, ttl, now, begun)];
      stores := stores + more;
      cache := cache[key := Entry(message, now + ttl * SECOND)];
      assert Recorded(stores, clock, key, cache[key], |stores| - 1);
      StillRecorded(old(cache), old(stores), old(clock), cache, more, clock);
    }

    // The store behind the cache may drop entries whenever it likes.
    method Evict(keys: set<Key>)
      requires Valid()
      modifies this`cache
      ensures Valid() && cache == old(cache) - keys
    {
      cache := cache - keys;
    }

    method ClearCache()
      requires Valid()
      modifies this`cache
      ensures Valid() && cache == map[]
    {
      cache := map[];
    }

    method LoadResponse(key: Key, now: nat) returns (response: Option<Message>, stale: bool)
      requires Valid() && clock <= now
      modifies this`cache, this`clock
      ensures Valid() && clock == now
      ensures response.Some? ==> Justified(stores, key, now, !disableExpire, optimisticTimeout, stale, response.value)
      ensures response.Some? <==>
                && key in old(cache)
                && (disableExpire || now <= old(cache)[key].expireAt || now < old(cache)[key].expireAt + optimisticTimeout)
      ensures response.Some? ==> (stale <==> !disableExpire && now > old(cache)[key].expireAt)
      ensures cache == if response.Some? then old(cache) else old(cache) - {key}
    {
      Wait(now);
      if key !in cache {
        return None, false;
      }
      var entry := cache[key];
      ghost var i: nat :| Recorded(stores, clock, key, entry, i);
      if disableExpire {
        return Some(entry.message), false;
      }
      if now > entry.expireAt {
        if optimisticTimeout > 0 && now < entry.expireAt + optimisticTimeout {
          return Some(Normalized(entry.message, 1)), true;
        }
        Evict({key});
        return None, false;
      }
      LeftFits(stores[i], now);
      return Some(Normalized(entry.message, (entry.expireAt - now) / SECOND)), false;
    }

    // What a query is answered with at once: a fresh answer, or a stale one if the query allows it.
    method Serve(key: Key, now: nat, disableOptimistic: bool) returns (response: Option<Message>, stale: bool, refresh: bool)
      requires Valid() && clock <= now
      modifies this`cache, this`clock, this`refreshing
      ensures Valid() && clock == now
      ensures response.Some? ==> Justified(stores, key, now, !disableExpire, optimisticTimeout, stale, response.value)
      ensures response.Some? <==>
                && key in old(cache)
                && (disableExpire || now <= old(cache)[key].expireAt ||
                    (!disableOptimistic && now < old(cache)[key].expireAt + optimisticTimeout))
      ensures refresh <==> response.Some? && stale && key !in old(refreshing)
      ensures refreshing == if refresh then old(refreshing) + {key} else old(refreshing)
    {
      response, stale := LoadResponse(key, now);
      refresh := false;
      if response.Some? && stale {
        if disableOptimistic {
          return None, stale, false;
        }
        // One refresh per key at a time.
        if key !in refreshing {
          refreshing := refreshing + {key};
          refresh := true;
        }
      }
    }

    // The transport has answered a query.
    method FinishExchange(query: Query, response: Message, environment: nat, now: nat) returns (delivery: Delivery)
      requires Valid() && clock <= now
      modifies this`cache, this`stores, this`clock
      ensures Valid() && clock == now
      ensures Refused(query, response) ==> delivery == Rejected(response)
      ensures !Refused(query, response) ==> delivery == Accepted(Normalized(response, ChosenTTL(query, response)))
      ensures stores == old(stores) + if query.disableCache then [] else StoredFor(query, response, environment, now)
      ensures cache == FiledIn(old(cache), if query.disableCache then [] else StoredFor(query, response, environment, now))
      ensures delivery.Rejected? <==> query.checker.Some? && ((response.rcode != 0 && response.rcode != 3) || !query.checker.value(response))
      ensures delivery.Accepted? ==>
                CarriesAll(response, if query.rewriteTTL.Some? then query.rewriteTTL.value else TimeToLiveOf(response), delivery.response)
    {
      NormalizedCarries(response, ChosenTTL(query, response));
      var disableCache := query.disableCache || !Keepable(response.rcode);
      if query.checker.Some? {
        var rejected := !Keepable(response.rcode) || !query.checker.value(response);
        if rejected {
          Wait(now);
          return Rejected(response);
        }
      }
      var ttl := TimeToLiveOf(response);
      if query.rewriteTTL.Some? {
        ttl := query.rewriteTTL.value;
      }
      var normalized := Normalized(response, ttl);
      NormalizedTTLs(response, ttl);
      Wait(now);
      if !disableCache {
        var key := FinishKey(query.key, environment);
        if key.Some? {
          StoreCache(key.value, normalized, ttl, now, query.key);
        }
      }
      return Accepted(normalized);
    }

    // A background refresh has ended: it answered, or it failed.
    method EndRefresh(query: Query, outcome: Option<Message>, environment: nat, now: nat)
      requires Valid() && clock <= now
      modifies this`cache, this`stores, this`clock, this`refreshing
      ensures Valid() && clock == now && refreshing == old(refreshing) - {query.key}
      ensures stores == old(stores) + if outcome.None? then [] else StoredFor(query, outcome.value, environment, now)
      ensures cache == FiledIn(old(cache), if outcome.None? then [] else StoredFor(query, outcome.value, environment, now))
    {
      Wait(now);
      refreshing := refreshing - {query.key};
      if outcome.None? {
        return;
      }
      var response := outcome.value;
      if query.checker.Some? {
        var rejected := !Keepable(response.rcode) || !query.checker.value(response);
        if rejected {
          return;
        }
      } else if !Keepable(response.rcode) {
        return;
      }
      var key := FinishKey(query.key, environment);
      if key.None? {
        return;
      }
      var ttl := if query.rewriteTTL.Some? then query.rewriteTTL.value else TimeToLiveOf(response);
      NormalizedTTLs(response, ttl);
      StoreCache(key.value, Normalized(response, ttl), ttl, now, query.key);
    }

    ghost method Wait(now: nat)
      requires Valid() && clock <= now
      modifies this`clock
      ensures Valid() && clock == now
    {
      clock := now;
      assert stores + [] == stores;
      StillRecorded(cache, stores, old(clock), cache, [], clock);
    }
  }
}
