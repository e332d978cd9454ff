// pglock's client code, each call run without interference (pglock/lock.go, pglock/holder.go). PgSteps interleaves
// the calls and lets connections die.

module PgLock {
  import opened Wrappers
  import opened PgKey
  import opened PgSteps

  /** The server: which session has which advisory lock, and how often. */
  class Database {
    var locks: map<int, Lock>

    constructor ()
      ensures locks == map[]
    {
      locks := map[];
    }

    predicate TakenByOther(session: nat, key: int)
      reads this
    {
      key in locks && locks[key].session != session
    }

    /** pg_try_advisory_lock. */
    method TryLock(session: nat, key: int) returns (got: bool)
      modifies this
      ensures got <==> !old(TakenByOther(session, key))
      ensures locks == if got then Taken(old(locks), session, key) else old(locks)
    {
      if key in locks && locks[key].session != session {
        return false;
      }
      locks := locks[key := Lock(session, if key in locks then locks[key].count + 1 else 1)];
      return true;
    }

    /** pg_advisory_unlock: false when this session does not have the lock. */
    method Unlock(session: nat, key: int) returns (ok: bool)
      modifies this
      ensures ok <==> key in old(locks) && old(locks)[key].session == session
      ensures locks == if ok then GivenBack(old(locks), key) else old(locks)
    {
      if key !in locks || locks[key].session != session {
        return false;
      }
      if locks[key].count <= 1 {
        locks := locks - {key};
      } else {
        locks := locks[key := Lock(session, locks[key].count - 1)];
      }
      return true;
    }

    /** The session ends and with it its locks. */
    method End(session: nat)
      modifies this
      ensures locks == Without(old(locks), session)
    {
      locks := map k | k in locks && locks[k].session != session :: locks[k];
    }
  }

  class Pool {
    var idle: set<nat>
    var out: set<nat>
    var next: nat
    const max: nat

    ghost predicate Valid()
      reads this
    {
      idle !! out && (forall x :: x in idle ==> x < next) && (forall x :: x in out ==> x < next)
    }

    constructor (max: nat)
      ensures Valid() && idle == {} && out == {} && this.max == max
    {
      idle, out, next := {}, {}, 0;
      this.max := max;
    }

    /** pool.Acquire: an idle connection, a new one while the pool may grow, or an error. */
    method Acquire() returns (c: Option<nat>)
      requires Valid()
      modifies this
      ensures Valid()
      ensures c.None? <==> old(idle) == {} && old(|out|) >= max
      ensures c.None? ==> out == old(out) && idle == old(idle) && next == old(next)
      ensures c.Some? ==>
        && c.value !in old(out) && (c.value in old(idle) || c.value >= old(next))
        && out == old(out) + {c.value} && idle == old(idle) - {c.value} && next >= old(next)
    {
      if x :| x in idle {
        idle, out := idle - {x}, out + {x};
        return Some(x);
      }
      if |out| >= max {
        return None;
      }
      var x := next;
      out, next := out + {x}, next + 1;
      return Some(x);
    }

    /** conn.Release: a dead connection is dropped instead of going back. */
    method Release(c: nat, dead: bool)
      requires Valid() && c in out
      modifies this
      ensures Valid() && next == old(next) && out == old(out) - {c}
      ensures idle == if dead then old(idle) else old(idle) + {c}
    {
      out := out - {c};
      if !dead {
        idle := idle + {c};
      }
    }
  }

  /** No lock belongs to an idle connection or to one that was never made. */
  ghost predicate IdleIsClean(db: Database, pool: Pool)
    reads db, pool
  {
    forall k :: k in db.locks ==> db.locks[k].session !in pool.idle && db.locks[k].session < pool.next
  }

  /** The session has this one lock, taken once, and no other. */
  ghost predicate HasJust(locks: map<int, Lock>, session: nat, key: int) {
    && key in locks && locks[key] == Lock(session, 1)
    && (forall k :: k in locks && k != key ==> locks[k].session != session)
  }

  /** A query works, or fails: before or after the server ran it, with or without the end of its session. */
  datatype Query = Works | Fails(ran: bool, closes: bool)

  /** A try-lock query that leaves no lock behind unless it is answered. */
  predicate CleanLock(q: Query) {
    q.Works? || !q.ran || q.closes
  }

  /** An unlock query after which the lock is gone. */
  predicate CleanUnlock(q: Query) {
    q.Works? || q.ran || q.closes
  }

  /** The locks are as before, but for a key that was free and that an idle session has now. */
  ghost predicate SameOrLeaked(before: map<int, Lock>, after: map<int, Lock>, idle: set<nat>, key: int) {
    || after == before
    || (key !in before && key in after && after[key].session in idle && after == Taken(before, after[key].session, key))
  }

  datatype Outcome = Acquired | Locked | Failed

  class Holder {
    const session: nat
    const key: int
    var released: bool

    constructor (session: nat, key: int)
      ensures this.session == session && this.key == key && !released
    {
      this.session, this.key, released := session, key, false;
    }

    /**
     * ReleaseContext: unlocks and returns the connection once; later calls do nothing. The key stays locked exactly
     * if the query failed without running and without closing the session.
     */
    method Release(db: Database, pool: Pool, unlock: Query) returns (ok: bool)
      requires pool.Valid()
      requires !released ==> session in pool.out && HasJust(db.locks, session, key)
      modifies this, db, pool
      ensures released && pool.Valid()
      ensures old(released) ==> ok && db.locks == old(db.locks) && pool.out == old(pool.out) && pool.idle == old(pool.idle)
      ensures !old(released) ==>
        && ok == unlock.Works? && db.locks == (if CleanUnlock(unlock) then old(db.locks) - {key} else old(db.locks))
        && pool.out == old(pool.out) - {session}
        && pool.idle == if unlock.Works? || !unlock.closes then old(pool.idle) + {session} else old(pool.idle)
      ensures CleanUnlock(unlock) && old(IdleIsClean(db, pool)) ==> IdleIsClean(db, pool)
    {
      if released {
        return true;
      }
      released := true;
      if unlock.Works? || unlock.ran {
        var _ := db.Unlock(session, key);
        assert db.locks == old(db.locks) - {key};
      }
      if unlock.Fails? && unlock.closes {
        db.End(session);
        assert forall k :: k in db.locks <==> k in old(db.locks) && k != key;
        assert forall k :: k in db.locks ==> db.locks[k] == old(db.locks)[k];
        assert db.locks == old(db.locks) - {key};
      }
      pool.Release(session, unlock.Fails? && unlock.closes);
      return unlock.Works?;
    }
  }

  /** The end of a session that had nothing undoes what it may have locked since. */
  lemma EndUndoes(locks: map<int, Lock>, session: nat, key: int)
    requires forall k :: k in locks ==> locks[k].session != session
    ensures Without(locks, session) == locks
    ensures key !in locks ==> Without(Taken(locks, session, key), session) == locks
  {
    forall k ensures k in Without(locks, session) <==> k in locks {
    }
    var taken := Taken(locks, session, key);
    forall k ensures key !in locks ==> (k in Without(taken, session) <==> k in locks) {
      assert k in taken && k != key ==> taken[k] == locks[k];
    }
  }

  /** acquireSlot: a connection of its own, one try on the key, and the connection goes back unless the lock was got. */
  method AcquireSlot(db: Database, pool: Pool, base: int, slot: nat, query: Query) returns (r: Outcome, holder: Option<Holder>)
    requires pool.Valid() && IdleIsClean(db, pool)
    modifies db, pool
    ensures pool.Valid() && (CleanLock(query) ==> IdleIsClean(db, pool))
    ensures r.Acquired? <==> holder.Some?
    ensures r.Failed? <==> !query.Works? || old(pool.idle == {} && |pool.out| >= pool.max)
    ensures !r.Acquired? ==> pool.out == old(pool.out) && SameOrLeaked(old(db.locks), db.locks, pool.idle, SlotKey(base, slot))
    ensures !r.Acquired? ==>
      (db.locks == old(db.locks) <==>
       CleanLock(query) || old(pool.idle == {} && |pool.out| >= pool.max) || SlotKey(base, slot) in old(db.locks))
    ensures r.Locked? ==> SlotKey(base, slot) in old(db.locks)
    ensures r.Acquired? ==>
      && SlotKey(base, slot) !in old(db.locks)
      && holder.value.key == SlotKey(base, slot) && !holder.value.released && fresh(holder.value)
      && holder.value.session !in old(pool.out) && pool.out == old(pool.out) + {holder.value.session}
      && db.locks == old(db.locks)[SlotKey(base, slot) := Lock(holder.value.session, 1)]
  {
    hide SlotKey, Without;
    var c := pool.Acquire();
    if c.None? {
      return Failed, None;
    }
    var session := c.value;
    var key := SlotKey(base, slot);
    assert forall k :: k in db.locks ==> db.locks[k].session != session;
    var got := false;
    if query.Works? || query.ran {
      got := db.TryLock(session, key);
    }
    if query.Fails? {
      if query.closes {
        EndUndoes(old(db.locks), session, key);
        db.End(session);
      }
      pool.Release(session, query.closes);
      return Failed, None;
    }
    if !got {
      pool.Release(session, false);
      return Locked, None;
    }
    var h := new Holder(session, key);
    return Acquired, Some(h);
  }

  ghost predicate AllTaken(locks: map<int, Lock>, base: int, n: nat) {
    forall i :: 0 <= i < n ==> SlotKey(base, i) in locks
  }

  /**
   * acquire: the first slot whose key is free is taken, with exactly one connection kept; Locked means that every
   * slot's key is locked. Singleton mode is the scan of slot 0 alone.
   */
  method Acquire(db: Database, pool: Pool, base: int, n: nat, cancelled: bool, queries: seq<Query>)
    returns (r: Outcome, holder: Option<Holder>, ghost slot: nat)
    requires pool.Valid() && IdleIsClean(db, pool) && n >= 1 && |queries| == n
    modifies db, pool
    ensures pool.Valid() && ((forall q :: q in queries ==> CleanLock(q)) ==> IdleIsClean(db, pool))
    ensures r.Acquired? <==> holder.Some?
    ensures !r.Acquired? ==> pool.out == old(pool.out)
    ensures cancelled || r.Locked? ==> db.locks == old(db.locks)
    ensures r.Locked? ==> AllTaken(old(db.locks), base, n)
    ensures cancelled ==> r.Failed? && pool.idle == old(pool.idle)
    ensures r.Failed? && !cancelled ==>
      && slot < n && AllTaken(old(db.locks), base, slot) && (!queries[slot].Works? || old(|pool.out| >= pool.max))
      && SameOrLeaked(old(db.locks), db.locks, pool.idle, SlotKey(base, slot))
      && (CleanLock(queries[slot]) ==> db.locks == old(db.locks))
    ensures r.Acquired? ==>
      && slot < n && AllTaken(old(db.locks), base, slot) && SlotKey(base, slot) !in old(db.locks)
      && pool.out == old(pool.out) + {holder.value.session} && holder.value.session !in old(pool.out)
      && db.locks == old(db.locks)[SlotKey(base, slot) := Lock(holder.value.session, 1)]
  {
    hide SlotKey;
    slot := 0;
    if cancelled {
      return Failed, None, 0;
    }
    var i := 0;
    while i < n
      invariant 0 <= i <= n
      invariant pool.Valid() && IdleIsClean(db, pool)
      invariant db.locks == old(db.locks) && pool.out == old(pool.out)
      invariant AllTaken(old(db.locks), base, i)
    {
      r, holder := AcquireSlot(db, pool, base, i, queries[i]);
      if r.Acquired? {
        slot := i;
        return;
      }
      if r.Failed? {
        slot := i;
        return;
      }
      i := i + 1;
    }
    r, holder := Locked, None;
  }
}
