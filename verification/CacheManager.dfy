/**
 * Redis as a string store with expiry, and the cache manager's methods on it, run one at a time.
 * The commands are functions on the store; `KeyView` ties them to the per-key transition system
 * of `CacheProtocol`, where calls interleave.
 */
module CacheManager {
  import opened Prelude
  import opened CacheProtocol

  /** The text of a cell: a lock token, an encoded cache value, or anything else. */
  datatype Text = Uuid(token: Token) | Cached(data: Data) | Foreign(raw: string)

  datatype Cell = Cell(text: Text, expiresAt: Option<nat>)

  type Store = map<string, Cell>

  // ---- commands ---------------------------------------------------------------------------

  predicate Live(store: Store, now: nat, key: string) {
    key in store && (store[key].expiresAt.Some? ==> now < store[key].expiresAt.value)
  }

  function GetCmd(store: Store, now: nat, key: string): Option<Text> {
    if Live(store, now, key) then Some(store[key].text) else None
  }

  function SetNxCmd(store: Store, now: nat, key: string, cell: Cell): Store {
    if Live(store, now, key) then store else store[key := cell]
  }

  /** The release script: GET and DEL in one atomic evaluation. */
  function CompareDelCmd(store: Store, now: nat, key: string, token: Token): Store {
    if GetCmd(store, now, key) == Some(Uuid(token)) then store - {key} else store
  }

  function LockKey(key: string): string { "lock:" + key }

  // ---- the view of one key ----------------------------------------------------------------

  /** A data key never looks like a lock key, and lock cells are only written by `acquireLock`. */
  predicate DataKey(key: string) { !("lock:" <= key) }

  predicate LockCells(store: Store) {
    forall key | key in store && "lock:" <= key :: store[key].text.Uuid? && store[key].expiresAt.Some?
  }

  function EntryView(store: Store, now: nat, key: string): Option<Entry> {
    match GetCmd(store, now, key)
    case Some(Cached(data)) => Some(Entry(data, store[key].expiresAt))
    case _ => None
  }

  function LockView(store: Store, now: nat, key: string): Option<Lock>
    requires LockCells(store)
  {
    if Live(store, now, LockKey(key))
    then Some(Lock(store[LockKey(key)].text.token, store[LockKey(key)].expiresAt.value))
    else None
  }

  /** The store shows the protocol state `s` of `key`. */
  predicate Shows(store: Store, key: string, s: State) {
    && LockCells(store)
    && EntryView(store, s.now, key) == s.entry
    && LockView(store, s.now, key) == s.lock
  }

  /** What a protocol step of `key` does to the shared store. */
  function Command(store: Store, key: string, s: State, step: Step): Store
    requires Enabled(s, step)
  {
    match step
    case Acquire(_, token, ttlMs, _) =>
      SetNxCmd(store, s.now, LockKey(key), Cell(Uuid(token), Some(s.now + ttlMs)))
    case Store(p, ttl, _) => store[key := Cell(Cached(s.pcs[p].data), Expiry(s.now, ttl))]
    case Release(p, _) => CompareDelCmd(store, s.now, LockKey(key), s.pcs[p].token)
    case Invalidate => store - {key}
    case Flush => map[]
    case Fill(data, ttl) => store[key := Cell(Cached(data), Expiry(s.now, ttl))]
    case _ => store
  }

  lemma LockKeys(a: string, b: string)
    ensures "lock:" <= LockKey(a)
    ensures LockKey(a) == LockKey(b) ==> a == b
  {
    assert LockKey(a)[5..] == a && LockKey(b)[5..] == b;
  }

  /** The per-key system is faithful: its steps are what the commands do to that key's view. */
  lemma CommandShows(store: Store, key: string, s: State, step: Step)
    requires DataKey(key) && Shows(store, key, s) && Enabled(s, step)
    ensures Shows(Command(store, key, s, step), key, Apply(s, step))
  {
    LockKeys(key, key);
  }

  /** And keys do not disturb each other: short of a flush, other keys' views stay put. */
  lemma OtherKeysUntouched(store: Store, key: string, s: State, step: Step, other: string)
    requires DataKey(key) && DataKey(other) && other != key
    requires Shows(store, key, s) && Enabled(s, step) && !step.Flush?
    ensures var after := Command(store, key, s, step);
            && LockCells(after)
            && EntryView(after, s.now, other) == EntryView(store, s.now, other)
            && LockView(after, s.now, other) == LockView(store, s.now, other)
  {
    LockKeys(key, other);
    LockKeys(other, key);
  }

  // ---- jitter -----------------------------------------------------------------------------

  lemma Scaled(x: real, y: real)
    requires 0.0 <= x && 0.0 <= y
    ensures 0.0 <= x * y
  {
  }

  /**
   * The time-to-live plus the whole seconds of a random share of the ratio of it: never shorter, and
   * longer by at most the ratio.
   */
  function WithJitter(ttlSeconds: nat, ratio: real, random: real): (ttl: int)
    requires 0.0 <= random < 1.0
    ensures var share := ttlSeconds as real * ratio * random;
            (ttl - ttlSeconds) as real <= share < (ttl - ttlSeconds) as real + 1.0
    ensures 0.0 <= ratio ==> 0.0 <= (ttl - ttlSeconds) as real <= ttlSeconds as real * ratio
  {
    var spread := ttlSeconds as real * ratio;
    var jitter := spread * random;
    assert 0.0 <= ratio ==> 0.0 <= jitter <= spread by {
      if 0.0 <= ratio {
        Scaled(ttlSeconds as real, ratio);
        Scaled(spread, random);
        Scaled(spread, 1.0 - random);
      }
    }
    assert jitter.Floor as real <= jitter;
    ttlSeconds + jitter.Floor
  }

  // ---- the manager, one call at a time ----------------------------------------------------

  /** The Redis connection.  The clock counts in units no longer than one round trip. */
  class RedisClient {
    var store: Store
    var now: nat

    constructor ()
      ensures store == map[] && now == 0
    {
      store, now := map[], 0;
    }

    method Get(key: string) returns (text: Option<Text>)
      modifies this`now
      ensures text == GetCmd(store, old(now), key) && now == old(now) + 1
    {
      text := if Live(store, now, key) then Some(store[key].text) else None;
      now := now + 1;
    }

    method Set(key: string, text: Text, ttl: nat)
      modifies this
      ensures store == old(store)[key := Cell(text, Expiry(old(now), ttl))] && now == old(now) + 1
    {
      if ttl != 0 {
        store := store[key := Cell(text, Some(now + ttl))];
      } else {
        store := store[key := Cell(text, None)];
      }
      now := now + 1;
    }

    method SetNx(key: string, text: Text, ttlMs: nat) returns (ok: bool)
      modifies this
      ensures ok == !Live(old(store), old(now), key) && now == old(now) + 1
      ensures store == SetNxCmd(old(store), old(now), key, Cell(text, Some(old(now) + ttlMs)))
    {
      ok := !Live(store, now, key);
      if ok {
        store := store[key := Cell(text, Some(now + ttlMs))];
      }
      now := now + 1;
    }

    method Del(keys: seq<string>)
      modifies this
      ensures store == old(store) - (set k | k in keys) && now == old(now) + 1
    {
      store := store - (set k | k in keys);
      now := now + 1;
    }

    method CompareDel(key: string, token: Token)
      modifies this
      ensures store == CompareDelCmd(old(store), old(now), key, token) && now == old(now) + 1
    {
      if Live(store, now, key) && store[key].text == Uuid(token) {
        store := store - {key};
      }
      now := now + 1;
    }

    method Sleep(ms: nat)
      modifies this`now
      ensures now == old(now) + ms
    {
      now := now + ms;
    }
  }

  /** A loader call: how long it takes, its data, or `None` when it throws, and the jitter drawn. */
  datatype Load = Load(duration: nat, result: Option<Data>, random: real)
  {
    predicate Sound() { 0.0 <= random < 1.0 }
  }

  datatype ReadOptions = ReadOptions(
    ttlSeconds: nat, jitterRatio: real, negativeTtlSeconds: nat,
    lockTtlMs: nat, waitMs: nat, maxWaitAttempts: nat)
  {
    /** Redis refuses a lock time-to-live of zero, and a negative ratio could make a ttl negative. */
    predicate Sound() { lockTtlMs > 0 && 0.0 <= jitterRatio }

    /** The expiry stored for `data` at time `at` when jitter draws `random`. */
    function EntryTtl(data: Data, random: real): (ttl: nat)
      requires Sound() && 0.0 <= random < 1.0
      ensures data.None? ==> ttl == 1000 * negativeTtlSeconds
      ensures data.Some? ==> 0.0 <= (ttl - 1000 * ttlSeconds) as real <= (1000 * ttlSeconds) as real * jitterRatio
    {
      if data.None? then 1000 * negativeTtlSeconds
      else
        var seconds := WithJitter(ttlSeconds, jitterRatio, random);
        assert (1000 * ttlSeconds) as real * jitterRatio == 1000.0 * (ttlSeconds as real * jitterRatio);
        assert (1000 * seconds - 1000 * ttlSeconds) as real == 1000.0 * (seconds - ttlSeconds) as real;
        1000 * seconds
    }
  }

  /** What a command does: it works, throws without effect, or takes effect although its reply is lost. */
  datatype Fate = Works | Fails | ReplyLost

  class CacheManager {
    const redis: RedisClient
    var drawn: nat      // random UUIDs, as a supply of numbers never drawn twice

    ghost predicate Valid()
      reads this, redis
    {
      && LockCells(redis.store)
      && forall key | key in redis.store && redis.store[key].text.Uuid? :: redis.store[key].text.token < drawn
    }

    constructor (redis: RedisClient)
      requires redis.store == map[]
      ensures Valid() && this.redis == redis && drawn == 0
    {
      this.redis, drawn := redis, 0;
    }

    method AcquireLock(key: string, ttlMs: nat) returns (token: Option<Token>)
      requires Valid()
      modifies this, redis
      ensures Valid() && redis.now == old(redis.now) + 1
      ensures token.Some? <==> !Live(old(redis.store), old(redis.now), key)
      ensures token.Some? ==> token.value == old(drawn)
      ensures redis.store == SetNxCmd(old(redis.store), old(redis.now), key,
                                      Cell(Uuid(old(drawn)), Some(old(redis.now) + ttlMs)))
    {
      var uuid := drawn;
      drawn := drawn + 1;
      var ok := redis.SetNx(key, Uuid(uuid), ttlMs);
      token := if ok then Some(uuid) else None;
    }

    method ReleaseLock(key: string, token: Token)
      requires Valid()
      modifies redis
      ensures Valid() && redis.now == old(redis.now) + 1
      ensures redis.store == CompareDelCmd(old(redis.store), old(redis.now), key, token)
    {
      redis.CompareDel(key, token);
    }

    method Invalidate(key: string)
      requires Valid()
      modifies redis
      ensures Valid() && redis.store == old(redis.store) - {key}
    {
      redis.Del([key]);
    }

    /** The entry goes only once the deleter succeeded. */
    method Delete(key: string, deleterThrows: bool) returns (ok: bool)
      requires Valid()
      modifies redis
      ensures Valid() && ok == !deleterThrows
      ensures redis.store == if ok then old(redis.store) - {key} else old(redis.store)
    {
      if deleterThrows {
        return false;
      }
      redis.Del([key]);
      return true;
    }

    /**
     * `written` is what the writer produced, or `None` when it throws: then nothing else happens.  A
     * failed cache set never fails the write by itself; it removes the entry when asked to, and only
     * if that removal throws as well the call rejects, after the database write.
     */
    method Write(key: string, written: Option<Payload>, ttlSeconds: nat, jitterRatio: real, random: real,
                 setting: Fate, rollbackCacheOnError: bool, removing: Fate)
      returns (out: Option<Payload>)
      requires Valid() && DataKey(key) && 0.0 <= random < 1.0 && 0.0 <= jitterRatio
      modifies redis
      ensures Valid()
      ensures out == if !setting.Works? && rollbackCacheOnError && !removing.Works? then None else written
      ensures redis.store ==
              if written.None? then old(redis.store)
              else
                var ttl := 1000 * WithJitter(ttlSeconds, jitterRatio, random);
                var cell := Cell(Cached(Some(written.value)), Expiry(old(redis.now), ttl));
                var stored := if setting.Fails? then old(redis.store) else old(redis.store)[key := cell];
                if setting.Works? || !rollbackCacheOnError || removing.Fails? then stored else stored - {key}
    {
      if written.None? {
        return None;
      }
      if !setting.Fails? {
        redis.Set(key, Cached(Some(written.value)), 1000 * WithJitter(ttlSeconds, jitterRatio, random));
      }
      if !setting.Works? && rollbackCacheOnError {
        if !removing.Fails? {
          redis.Del([key]);
        }
        if !removing.Works? {
          return None;
        }
      }
      return written;
    }

    /** How long the current lock on `key` still lives. */
    ghost function LockLeft(key: string): nat
      requires Valid()
      reads this, redis
    {
      if Live(redis.store, redis.now, LockKey(key))
      then redis.store[LockKey(key)].expiresAt.value - redis.now
      else 0
    }

    /**
     * The contract of an uninterrupted `read` whose first look in the cache is at time `at`.  A
     * value cached then, negative ones included, is returned as it is.  Otherwise the loader runs
     * exactly once, even when an abandoned lock has to run out first; its data is returned and
     * cached, an error leaves the entry alone, and either way the lock ends up free.
     */
    twostate predicate ReadOk(at: nat, key: string, load: Load, options: ReadOptions, out: Outcome, loads: nat)
      requires options.Sound() && load.Sound()
      reads this, redis
    {
      var before := old(redis.store);
      var cached := GetCmd(before, at, key);
      && redis.store - {key, LockKey(key)} == before - {key, LockKey(key)}
      && if cached.Some? && cached.value.Cached? then
           out == Value(cached.value.data) && loads == 0 && redis.store == before
         else
           && loads == 1
           && !Live(redis.store, redis.now, LockKey(key))
           && match load.result {
                case None => out == Threw && redis.store - {LockKey(key)} == before - {LockKey(key)}
                case Some(data) =>
                  && out == Value(data) && key in redis.store && redis.store[key].text == Cached(data)
                  && var ttl := options.EntryTtl(data, load.random);
                     && (ttl == 0 <==> redis.store[key].expiresAt.None?)
                     && (ttl != 0 ==> old(redis.now) < redis.store[key].expiresAt.value <= redis.now + ttl)
              }
    }

    method Read(key: string, load: Load, options: ReadOptions) returns (out: Outcome, loads: nat)
      requires Valid() && DataKey(key) && options.Sound() && load.Sound()
      modifies this, redis
      ensures Valid() && ReadOk(old(redis.now), key, load, options, out, loads)
      ensures old(redis.now) < redis.now
      decreases LockLeft(key), 0
    {
      LockKeys(key, key);
      var cached := redis.Get(key);
      if cached.Some? && cached.value.Cached? {
        return Value(cached.value.data), 0;
      }
      var lockKey := LockKey(key);
      var lock := AcquireLock(lockKey, options.lockTtlMs);
      if lock.None? {
        ghost var looks;
        out, loads, looks := WaitAndRetry(key, load, options);
        return;
      }
      out, loads := LoadUnderLock(key, load, options);
      ReleaseLock(lockKey, lock.value);
    }

    /** The body of `try`: look again, load, store. */
    method LoadUnderLock(key: string, load: Load, options: ReadOptions) returns (out: Outcome, loads: nat)
      requires Valid() && DataKey(key) && options.Sound() && load.Sound()
      modifies redis
      ensures Valid() && old(redis.now) < redis.now
      ensures loads == 1 ==> old(redis.now) + 1 + load.duration <= redis.now
      ensures var cached := GetCmd(old(redis.store), old(redis.now), key);
              if cached.Some? && cached.value.Cached? then
                out == Value(cached.value.data) && loads == 0 && redis.store == old(redis.store)
              else
                && loads == 1
                && match load.result {
                     case None => out == Threw && redis.store == old(redis.store)
                     case Some(data) =>
                       && out == Value(data)
                       && var stored := old(redis.now) + 1 + load.duration;
                          redis.store == old(redis.store)[
                            key := Cell(Cached(data), Expiry(stored, options.EntryTtl(data, load.random)))]
                   }
    {
      var cachedAgain := redis.Get(key);
      if cachedAgain.Some? && cachedAgain.value.Cached? {
        return Value(cachedAgain.value.data), 0;
      }
      loads := 1;
      redis.Sleep(load.duration);
      match load.result {
        case None =>
          out := Threw;
        case Some(data) =>
          if data.None? {
            redis.Set(key, Cached(None), 1000 * options.negativeTtlSeconds);
          } else {
            redis.Set(key, Cached(data), 1000 * WithJitter(options.ttlSeconds, options.jitterRatio, load.random));
          }
          out := Value(data);
      }
    }

    /**
     * Looks in the cache first after `waitMs`, or at once when no waiting is allowed; `looks` is how
     * often, before it competes for the lock again.
     */
    method WaitAndRetry(key: string, load: Load, options: ReadOptions)
      returns (out: Outcome, loads: nat, ghost looks: nat)
      requires Valid() && DataKey(key) && options.Sound() && load.Sound()
      modifies this, redis
      ensures Valid()
      ensures ReadOk(old(redis.now) + if options.maxWaitAttempts > 0 then options.waitMs else 0, key, load, options, out, loads)
      ensures old(redis.now) < redis.now
      ensures loads == 1 ==> looks == options.maxWaitAttempts
      ensures old(redis.now) + looks * (options.waitMs + 1) <= redis.now
      decreases LockLeft(key), 1
    {
      ghost var at := redis.now + if options.maxWaitAttempts > 0 then options.waitMs else 0;
      var i := 0;
      looks := 0;
      while i < options.maxWaitAttempts
        invariant looks == i <= options.maxWaitAttempts && redis.now == old(redis.now) + looks * (options.waitMs + 1)
        invariant redis.store == old(redis.store) && old(redis.now) <= redis.now && drawn == old(drawn)
        invariant if i == 0 then redis.now == old(redis.now) else at < redis.now
        invariant i > 0 ==>
                    var cached := GetCmd(redis.store, at, key); !(cached.Some? && cached.value.Cached?)
      {
        redis.Sleep(options.waitMs);
        var cached := redis.Get(key);
        looks := looks + 1;
        if cached.Some? && cached.value.Cached? {
          return Value(cached.value.data), 0, looks;
        }
        i := i + 1;
      }
      out, loads := Read(key, load, options);
    }
  }
}
