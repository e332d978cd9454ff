// The Redis keyspace and the five operations redislock runs on it (redislock/lock.go, redislock/scripts.go).

module RedisStore {
  import opened Wrappers
  import opened Decimal

  /** A key's contents: a holder's value with its expiry in milliseconds (None: never), or an INCR counter. */
  datatype Entry = Lease(value: string, deadline: Option<int>) | Counter(n: int)

  /** The server's clock in milliseconds and its keys. Expired keys are gone. */
  datatype Store = Store(now: int, db: map<string, Entry>)

  const NS_PER_MS: int := 1_000_000

  /** The expiry SetNX asks for: none for a zero TTL, and at least one millisecond otherwise. */
  function SetMillis(ttl: nat): Option<nat> {
    if ttl == 0 then None else if ttl < NS_PER_MS then Some(1) else Some(ttl / NS_PER_MS)
  }

  /** The expiry Extend asks for. */
  function ExtendMillis(ttl: nat): nat {
    ttl / NS_PER_MS
  }

  /** What GET answers. */
  function Reply(e: Entry): string {
    match e
    case Lease(value, _) => value
    case Counter(n) => DecInt(n)
  }

  predicate Matches(st: Store, key: string, value: string) {
    key in st.db && Reply(st.db[key]) == value
  }

  // ---------------------------------------------------------------- the operations

  function SetNX(st: Store, key: string, value: string, ttl: nat): Store {
    if key in st.db then st else
      var deadline := match SetMillis(ttl) case None => None case Some(ms) => Some(st.now + ms);
      st.(db := st.db[key := Lease(value, deadline)])
  }

  /** The new counter, or None for Redis's error reply: not an integer, or overflow. */
  function IncrReply(st: Store, key: string): Option<int> {
    if key !in st.db then Some(1) else
      match st.db[key]
      case Lease(_, _) => None
      case Counter(n) => if n < MAX_INT64 then Some(n + 1) else None
  }

  function Incr(st: Store, key: string): Store {
    match IncrReply(st, key)
    case None => st
    case Some(n) => st.(db := st.db[key := Counter(n)])
  }

  function ReleaseScript(st: Store, key: string, value: string): Store {
    if Matches(st, key, value) then st.(db := st.db - {key}) else st
  }

  /** PEXPIRE with a non-positive timeout deletes the key. */
  function ExtendScript(st: Store, key: string, value: string, ms: nat): Store {
    if !Matches(st, key, value) then st
    else if ms == 0 then st.(db := st.db - {key})
    else
      match st.db[key]
      case Lease(v, _) => st.(db := st.db[key := Lease(v, Some(st.now + ms))])
      case Counter(_) => st
  }

  predicate Expired(e: Entry, now: int) {
    e.Lease? && e.deadline.Some? && e.deadline.value < now
  }

  /** The clock moves on and keys past their deadline disappear. */
  function Tick(st: Store, ms: nat): Store {
    Store(st.now + ms, map k | k in st.db && !Expired(st.db[k], st.now + ms) :: st.db[k])
  }

  /** A holder value: at least the 32 hex digits of the identifier. */
  predicate IsHolderValue(v: string) {
    |v| >= 32
  }

  lemma CounterIsNoHolderValue(n: int, v: string)
    requires IsHolderValue(v) && MIN_INT64 <= n <= MAX_INT64
    ensures DecInt(n) != v
  {
    assert Pow10(5) == 100_000;
    assert Pow10(10) == 100_000 * Pow10(5);
    assert Pow10(15) == 100_000 * Pow10(10);
    assert Pow10(20) == 100_000 * Pow10(15);
    DecLength(if n < 0 then -n else n, 20);
  }

  /** Counters fit in int64. */
  predicate CountersFit(st: Store) {
    forall k :: k in st.db && st.db[k].Counter? ==> 1 <= st.db[k].n <= MAX_INT64
  }

  /** Does this holder value own the key? */
  predicate Owns(st: Store, key: string, value: string) {
    key in st.db && st.db[key].Lease? && st.db[key].value == value
  }

  lemma MatchesMeansOwns(st: Store, key: string, value: string)
    requires CountersFit(st) && IsHolderValue(value)
    ensures Matches(st, key, value) <==> Owns(st, key, value)
  {
    if key in st.db && st.db[key].Counter? {
      CounterIsNoHolderValue(st.db[key].n, value);
    }
    hide DecInt;
  }

  // ---------------------------------------------------------------- counting

  /** The store after k calls of INCR. */
  function Incrs(st: Store, key: string, k: nat): Store {
    if k == 0 then st else Incr(Incrs(st, key, k - 1), key)
  }

  predicate Counts(st: Store, key: string, n: int) {
    key in st.db && st.db[key] == Counter(n)
  }

  /** The k-th INCR of a fresh counter answers k, up to 2^63 - 1 and then with errors. */
  lemma {:induction false} KthIncrAnswersK(st: Store, key: string, k: nat)
    requires key !in st.db
    ensures IncrReply(Incrs(st, key, k), key) == if k < 0x7FFF_FFFF_FFFF_FFFF then Some(k + 1) else None
    ensures k > 0 ==> Counts(Incrs(st, key, k), key, if k < 0x7FFF_FFFF_FFFF_FFFF then k else 0x7FFF_FFFF_FFFF_FFFF)
  {
    if k > 0 {
      KthIncrAnswersK(st, key, k - 1);
    }
  }

  // ---------------------------------------------------------------- the scripts are guarded

  /** Neither script deletes or re-times any key that holds something else than the caller's value. */
  lemma ScriptsSpareOthers(st: Store, key: string, value: string, ms: nat, k: string)
    requires CountersFit(st) && IsHolderValue(value)
    requires k in st.db && !Owns(st, k, value)
    ensures k in ReleaseScript(st, key, value).db && ReleaseScript(st, key, value).db[k] == st.db[k]
    ensures k in ExtendScript(st, key, value, ms).db && ExtendScript(st, key, value, ms).db[k] == st.db[k]
  {
    hide DecInt;
    MatchesMeansOwns(st, key, value);
  }

  // ---------------------------------------------------------------- the server as an object

  class Server {
    var now: int
    var db: map<string, Entry>

    function View(): Store
      reads this
    {
      Store(now, db)
    }

    constructor ()
      ensures View() == Store(0, map[])
    {
      now, db := 0, map[];
    }

    /** SET key value NX PX. */
    method SetIfAbsent(key: string, value: string, ttl: nat) returns (stored: bool)
      modifies this
      ensures stored <==> key !in old(db)
      ensures View() == SetNX(old(View()), key, value, ttl)
    {
      if key in db {
        return false;
      }
      var ms := SetMillis(ttl);
      if ms.None? {
        db := db[key := Lease(value, None)];
      } else {
        db := db[key := Lease(value, Some(now + ms.value))];
      }
      return true;
    }

    /** INCR; None is an error reply. */
    method Increment(key: string) returns (n: Option<int>)
      modifies this
      ensures n == IncrReply(old(View()), key)
      ensures View() == Incr(old(View()), key)
    {
      if key !in db {
        db := db[key := Counter(1)];
        return Some(1);
      }
      if db[key].Lease? || db[key].n >= MAX_INT64 {
        return None;
      }
      db := db[key := Counter(db[key].n + 1)];
      return Some(db[key].n);
    }

    /** The release script: 1 if the key was deleted. */
    method RunRelease(key: string, value: string) returns (deleted: int)
      modifies this
      ensures deleted == (if Matches(old(View()), key, value) then 1 else 0)
      ensures View() == ReleaseScript(old(View()), key, value)
    {
      hide DecInt;
      if key in db && Reply(db[key]) == value {
        db := db - {key};
        return 1;
      }
      return 0;
    }

    /** The extend script: 1 if the expiry was reset. */
    method RunExtend(key: string, value: string, ms: nat) returns (extended: int)
      modifies this
      ensures extended == (if Matches(old(View()), key, value) then 1 else 0)
      ensures View() == ExtendScript(old(View()), key, value, ms)
    {
      hide DecInt;
      if key in db && Reply(db[key]) == value {
        if ms == 0 {
          db := db - {key};
        } else if db[key].Lease? {
          db := db[key := Lease(db[key].value, Some(now + ms))];
        }
        return 1;
      }
      return 0;
    }
  }
}
